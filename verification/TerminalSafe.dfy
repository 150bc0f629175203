/**
 Escaping of terminal-active characters in everything the interaction log command
 prints, and why it leaves what its `--json` output says unchanged.
 */
module TerminalSafe {
  import opened JsonText
  import opened Options

  /** C0 except newline and tab, DEL, C1, and the bidirectional and line-separator characters. */
  predicate Unsafe(c: char) {
    var n := c as int;
    || n <= 0x08 || 0x0b <= n <= 0x1f || 0x7f <= n <= 0x9f
    || n == 0x061c || n == 0x200e || n == 0x200f || 0x2028 <= n <= 0x202e || 0x2066 <= n <= 0x2069
  }

  /** A control character: the C0 and C1 sets and DELETE. */
  predicate IsControl(c: char) {
    (c as int) / 0x20 in {0, 4} || c as int == 0x7f
  }

  /** One of the twelve characters that direct bidirectional text: three marks and nine that open and close runs. */
  predicate DirectsText(c: char) {
    c as int in {0x061c, 0x200e, 0x200f, 0x202a, 0x202b, 0x202c, 0x202d, 0x202e, 0x2066, 0x2067, 0x2068, 0x2069}
  }

  /** Unsafe are the control characters but newline and tab, the bidirectional ones, and the two separators. */
  lemma UnsafeIff(c: char)
    ensures Unsafe(c) <==> (IsControl(c) && c !in "\n\t") || DirectsText(c) || c as int in {0x2028, 0x2029}
  {
    var n := c as int;
    assert n / 0x20 == 0 <==> n < 0x20;
    assert n / 0x20 == 4 <==> 0x80 <= n < 0xa0;
  }

  function SafeChar(c: char): string {
    if Unsafe(c) then "\\u" + Hex4(c as int) else [c]
  }

  function Safe(text: string): string {
    if text == [] then [] else SafeChar(text[0]) + Safe(text[1..])
  }

  predicate Plain(text: string) {
    forall i | 0 <= i < |text| :: !Unsafe(text[i])
  }

  // ----- the escaping by itself ------------------------------------------------------------------

  lemma HexDigitIsPlain(n: nat)
    requires n < 16
    ensures !Unsafe(HexDigit(n))
  {
    HexDigitReads(n);
  }

  lemma SafeCharIsPlain(c: char)
    ensures Plain(SafeChar(c)) && SafeChar(c) != []
  {
    if Unsafe(c) {
      var n := c as int;
      FourDigits(n);
      HexDigitIsPlain(n / 0x1000);
      HexDigitIsPlain(n / 0x100 % 16);
      HexDigitIsPlain(n / 16 % 16);
      HexDigitIsPlain(n % 16);
    }
  }

  lemma {:induction false} SafeIsPlain(text: string)
    ensures Plain(Safe(text))
  {
    if text != [] {
      SafeCharIsPlain(text[0]);
      SafeIsPlain(text[1..]);
    }
  }

  lemma Associate(a: string, b: string, c: string)
    ensures a + b + c == a + (b + c)
  {
  }

  lemma {:induction false} SafeKeepsPlain(text: string, tail: string)
    requires Plain(text)
    ensures Safe(text + tail) == text + Safe(tail)
  {
    if text == [] {
      assert text + tail == tail;
    } else {
      SafeKeepsPlain(text[1..], tail);
      assert (text + tail)[0] == text[0] && (text + tail)[1..] == text[1..] + tail;
      assert Safe(text + tail) == [text[0]] + (text[1..] + Safe(tail));
      Associate([text[0]], text[1..], Safe(tail));
      assert text == [text[0]] + text[1..];
    }
  }

  lemma {:induction false} SafeNeverShrinks(text: string)
    ensures |Safe(text)| >= |text|
    ensures Safe(text) == text ==> Plain(text)
  {
    if text != [] {
      SafeNeverShrinks(text[1..]);
      SafeCharIsPlain(text[0]);
      if Safe(text) == text {
        assert |SafeChar(text[0])| == 1;
        assert Safe(text)[1..] == Safe(text[1..]);
      }
    }
  }

  /** What is printed is free of unsafe characters, and text is left alone exactly when it was so already. */
  lemma SafeTextIsFixed(text: string)
    ensures Plain(Safe(text))
    ensures Safe(text) == text <==> Plain(text)
    ensures Safe(Safe(text)) == Safe(text)
  {
    SafeIsPlain(text);
    SafeNeverShrinks(text);
    if Plain(text) {
      SafeKeepsPlain(text, []);
      assert text + [] == text;
    }
    SafeKeepsPlain(Safe(text), []);
    assert Safe(text) + [] == Safe(text);
  }

  lemma {:induction false} SafeDistributes(a: string, b: string)
    ensures Safe(a + b) == Safe(a) + Safe(b)
  {
    if a == [] {
      assert a + b == b;
    } else {
      SafeDistributes(a[1..], b);
      assert (a + b)[1..] == a[1..] + b;
      Associate(SafeChar(a[0]), Safe(a[1..]), Safe(b));
    }
  }

  /** On plain text it is not injective: an unsafe character prints as the text of its escape does. */
  lemma EscapesCollideOnText(c: char)
    requires Unsafe(c)
    ensures [c] != SafeChar(c) && Safe([c]) == Safe(SafeChar(c)) == SafeChar(c)
  {
    SafeCharIsPlain(c);
    SafeTextIsFixed(SafeChar(c));
    assert [c][1..] == [] && SafeChar(c) + [] == SafeChar(c);
    assert |SafeChar(c)| == 6;
  }

  // ----- carriage returns ------------------------------------------------------------------------

  function Returns(s: string): nat {
    if s == [] then 0 else (if s[0] == '\r' then 1 else 0) + Returns(s[1..])
  }

  lemma {:induction false} PlainHasNoReturns(text: string, tail: string)
    requires Plain(text)
    ensures Returns(text + tail) == Returns(tail)
  {
    if text == [] {
      assert text + tail == tail;
    } else {
      PlainHasNoReturns(text[1..], tail);
      assert (text + tail)[1..] == text[1..] + tail;
    }
  }

  lemma {:induction false} ReturnsIffPresent(s: string)
    ensures Returns(s) == 0 <==> '\r' !in s
  {
    if s != [] {
      ReturnsIffPresent(s[1..]);
      assert s == [s[0]] + s[1..];
    }
  }

  // ----- the reader on escaped text ----------------------------------------------------------------

  /**
   How a reader fares on the escaped text: it gives the same value and the escaped rest
   when no carriage return was consumed, and it fails when one was.
   */
  ghost predicate Kept<T(!new)>(read: Option<(T, string)>, text: string, v: T, rest: string) {
    && Returns(rest) <= Returns(text)
    && (Returns(rest) == Returns(text) ==> read == Some((v, Safe(rest))))
    && (Returns(rest) < Returns(text) ==> read.None?)
  }

  lemma HeadStays(s: string)
    requires s != []
    ensures Safe(s) != [] && Safe(s)[0] == (if Unsafe(s[0]) then '\\' else s[0])
    ensures !Unsafe(s[0]) ==> Safe(s)[1..] == Safe(s[1..]) && Returns(s[1..]) == Returns(s)
  {
    SafeCharIsPlain(s[0]);
  }

  lemma {:induction false} SpaceSkips(s: string)
    ensures var r := SkipSpace(s);
            && Returns(r) <= Returns(s)
            && (Returns(r) == Returns(s) ==> SkipSpace(Safe(s)) == Safe(r))
            && (Returns(r) < Returns(s) ==> StartsWith(SkipSpace(Safe(s)), '\\'))
  {
    if s != [] {
      HeadStays(s);
      if IsSpace(s[0]) {
        SpaceSkips(s[1..]);
      }
    }
  }

  /** Nothing a value, an item or a member starts with is a backslash. */
  lemma BackslashReadsAsNothing(text: string)
    requires StartsWith(SkipSpace(text), '\\')
    ensures ReadValue(text).None? && ReadMember(text).None?
    ensures ReadItems(text).None? && ReadMembers(text).None?
  {
  }

  lemma HexIsPlain(s: string)
    requires ReadHex4(s).Some?
    ensures Plain(s[..4])
    ensures forall tail :: ReadHex4(s[..4] + tail) == ReadHex4(s)
  {
    assert HexValue(s[0]).Some? && HexValue(s[1]).Some? && HexValue(s[2]).Some? && HexValue(s[3]).Some?;
    forall tail ensures ReadHex4(s[..4] + tail) == ReadHex4(s) {
      var t := s[..4] + tail;
      assert t[0] == s[0] && t[1] == s[1] && t[2] == s[2] && t[3] == s[3];
    }
  }

  lemma UnicodeIsLocal(s: string, tail: string)
    requires ReadUnicode(s).Some?
    ensures var n := ReadUnicode(s).value.1 - 2;
            Plain(s[..n]) && ReadUnicode(s[..n] + tail) == ReadUnicode(s)
  {
    HexIsPlain(s);
    if ReadUnicode(s).value.1 == 12 {
      HexIsPlain(s[6..]);
      var t := s[..10] + tail;
      assert t == s[..4] + (s[4..10] + tail);
      assert t[6..] == s[6..][..4] + tail;
      assert s[..10] == s[..4] + [s[4], s[5]] + s[6..][..4];
    }
  }

  lemma TakeAfterTwo(s: string, n: nat, tail: string)
    requires 2 <= n <= |s|
    ensures s[..n] == [s[0], s[1]] + s[2..][..n - 2]
    ensures (s[..n] + tail)[2..] == s[2..][..n - 2] + tail
  {
  }

  lemma EscapeIsLocal(s: string, tail: string)
    requires StartsWith(s, '\\') && ReadChar(s).Some?
    ensures var n := ReadChar(s).value.1;
            Plain(s[..n]) && ReadChar(s[..n] + tail) == ReadChar(s)
  {
    var n := ReadChar(s).value.1;
    var t := s[..n] + tail;
    assert t[0] == s[0] && t[1] == s[1];
    if s[1] == 'u' {
      UnicodeIsLocal(s[2..], tail);
      TakeAfterTwo(s, n, tail);
    } else {
      assert s[..n] == [s[0], s[1]];
    }
  }

  lemma UnsafeCharReads(c: char, tail: string)
    requires Unsafe(c)
    ensures ReadChar(SafeChar(c) + tail) == Some((c, 6))
  {
    var s := SafeChar(c) + tail;
    assert s[2..] == Hex4(c as int) + tail;
    Hex4Reads(c as int, tail);
  }

  /** One character of a string body reads as the same character after escaping. */
  lemma CharReadsTheSame(s: string)
    requires ReadChar(s).Some? && !StartsWith(s, '"')
    ensures var (c, n) := ReadChar(s).value;
            && Returns(s[n..]) == Returns(s)
            && !StartsWith(Safe(s), '"')
            && ReadChar(Safe(s)).Some?
            && ReadChar(Safe(s)).value.0 == c
            && Safe(s)[ReadChar(Safe(s)).value.1..] == Safe(s[n..])
  {
    var (c, n) := ReadChar(s).value;
    HeadStays(s);
    if s[0] == '\\' {
      EscapeReadsTheSame(s);
    } else if Unsafe(c) {
      UnsafeCharReads(c, Safe(s[1..]));
    }
  }

  lemma EscapeReadsTheSame(s: string)
    requires StartsWith(s, '\\') && ReadChar(s).Some?
    ensures var n := ReadChar(s).value.1;
            && Returns(s[n..]) == Returns(s)
            && ReadChar(Safe(s)) == ReadChar(s)
            && Safe(s)[n..] == Safe(s[n..])
  {
    var n := ReadChar(s).value.1;
    EscapeIsLocal(s, Safe(s[n..]));
    PlainHeadStays(s, n);
  }

  /** A head without unsafe characters comes through as it is, with nothing lost after it. */
  lemma PlainHeadStays(s: string, n: nat)
    requires n <= |s| && Plain(s[..n])
    ensures Safe(s) == s[..n] + Safe(s[n..]) && Safe(s)[n..] == Safe(s[n..])
    ensures Returns(s[n..]) == Returns(s)
  {
    var head, tail := s[..n], s[n..];
    assert s == head + tail;
    SafeKeepsPlain(head, tail);
    PlainHasNoReturns(head, tail);
    assert (head + Safe(tail))[|head|..] == Safe(tail);
  }

  lemma {:induction false} CharsReadTheSame(s: string)
    requires ReadChars(s).Some?
    ensures var (text, rest) := ReadChars(s).value;
            Returns(rest) == Returns(s) && ReadChars(Safe(s)) == Some((text, Safe(rest)))
    decreases |s|
  {
    HeadStays(s);
    if !StartsWith(s, '"') {
      CharReadsTheSame(s);
      CharsReadTheSame(s[ReadChar(s).value.1..]);
    }
  }

  lemma LiteralReadsTheSame(s: string, word: string, v: Json)
    requires word != [] && Plain(word) && ReadLiteral(s, word, v).Some?
    ensures var rest := ReadLiteral(s, word, v).value.1;
            Returns(rest) == Returns(s) && ReadLiteral(Safe(s), word, v) == Some((v, Safe(rest)))
  {
    assert s[..|word|] == word;
    PlainHeadStays(s, |word|);
  }

  lemma {:induction false} NumberLengthStays(s: string)
    ensures var n := NumberLength(s);
            Plain(s[..n]) && NumberLength(Safe(s)) == n
  {
    if s != [] {
      HeadStays(s);
      if IsNumberChar(s[0]) {
        NumberLengthStays(s[1..]);
      }
    }
  }

  lemma NumberReadsTheSame(s: string)
    requires ReadNumber(s).Some?
    ensures var (v, rest) := ReadNumber(s).value;
            Returns(rest) == Returns(s) && ReadNumber(Safe(s)) == Some((v, Safe(rest)))
  {
    var n := NumberLength(s);
    NumberLengthStays(s);
    PlainHeadStays(s, n);
    assert (s[..n] + Safe(s[n..]))[..n] == s[..n];
  }

  /** A value with no white space before it. */
  lemma {:induction false} BareValueIsKept(s: string)
    requires s != [] && !IsSpace(s[0]) && ReadValue(s).Some?
    ensures Kept(ReadValue(Safe(s)), s, ReadValue(s).value.0, ReadValue(s).value.1)
    decreases |s|, 0
  {
    HeadStays(s);
    assert SkipSpace(s) == s && SkipSpace(Safe(s)) == Safe(s);
    if s[0] == 'n' {
      LiteralReadsTheSame(s, "null", Null);
    } else if s[0] == 't' {
      LiteralReadsTheSame(s, "true", Bool(true));
    } else if s[0] == 'f' {
      LiteralReadsTheSame(s, "false", Bool(false));
    } else if s[0] == '"' {
      CharsReadTheSame(s[1..]);
    } else if s[0] == '[' {
      ArrayIsKept(s);
    } else if s[0] == '{' {
      ObjectIsKept(s);
    } else {
      NumberReadsTheSame(s);
    }
  }

  lemma ArrayReading(s: string)
    requires StartsWith(s, '[')
    ensures var t := SkipSpace(s[1..]);
            && (StartsWith(t, ']') ==> ReadValue(s) == Some((Arr([]), t[1..])))
            && (!StartsWith(t, ']') && ReadItems(s[1..]).None? ==> ReadValue(s).None?)
            && (!StartsWith(t, ']') && ReadItems(s[1..]).Some? ==>
                  ReadValue(s) == Some((Arr(ReadItems(s[1..]).value.0), ReadItems(s[1..]).value.1)))
  {
    assert SkipSpace(s) == s;
  }

  lemma ObjectReading(s: string)
    requires StartsWith(s, '{')
    ensures var t := SkipSpace(s[1..]);
            && (StartsWith(t, '}') ==> ReadValue(s) == Some((Obj([]), t[1..])))
            && (!StartsWith(t, '}') && ReadMembers(s[1..]).None? ==> ReadValue(s).None?)
            && (!StartsWith(t, '}') && ReadMembers(s[1..]).Some? ==>
                  ReadValue(s) == Some((Obj(ReadMembers(s[1..]).value.0), ReadMembers(s[1..]).value.1)))
  {
    assert SkipSpace(s) == s;
  }

  /** The head of what follows white space, before and after escaping. */
  lemma HeadAfterSpace(s: string, c: char)
    requires !Unsafe(c) && c != '\\'
    ensures var t := SkipSpace(s);
            && Returns(t) <= Returns(s)
            && (StartsWith(t, c) ==> Returns(t[1..]) == Returns(t))
            && (Returns(t) == Returns(s) ==> SkipSpace(Safe(s)) == Safe(t))
            && (Returns(t) == Returns(s) && StartsWith(t, c) ==> StartsWith(Safe(t), c) && Safe(t)[1..] == Safe(t[1..]))
            && (Returns(t) < Returns(s) ==> StartsWith(SkipSpace(Safe(s)), '\\'))
            && (StartsWith(SkipSpace(Safe(s)), c) ==> StartsWith(t, c))
  {
    SpaceSkips(s);
    var t := SkipSpace(s);
    if t != [] {
      HeadStays(t);
    }
  }

  lemma {:induction false} ArrayIsKept(s: string)
    requires StartsWith(s, '[') && ReadValue(s).Some?
    ensures Kept(ReadValue(Safe(s)), s, ReadValue(s).value.0, ReadValue(s).value.1)
    decreases |s|, -1
  {
    HeadStays(s);
    HeadAfterSpace(s[1..], ']');
    ArrayReading(s);
    ArrayReading(Safe(s));
    var t := SkipSpace(s[1..]);
    if !StartsWith(t, ']') {
      ItemsAreKept(s[1..]);
    } else if Returns(t) < Returns(s) {
      BackslashReadsAsNothing(Safe(s[1..]));
    }
  }

  lemma {:induction false} ObjectIsKept(s: string)
    requires StartsWith(s, '{') && ReadValue(s).Some?
    ensures Kept(ReadValue(Safe(s)), s, ReadValue(s).value.0, ReadValue(s).value.1)
    decreases |s|, -1
  {
    HeadStays(s);
    HeadAfterSpace(s[1..], '}');
    ObjectReading(s);
    ObjectReading(Safe(s));
    var t := SkipSpace(s[1..]);
    if !StartsWith(t, '}') {
      MembersAreKept(s[1..]);
    } else if Returns(t) < Returns(s) {
      BackslashReadsAsNothing(Safe(s[1..]));
    }
  }

  lemma SpaceMakesNoDifference(text: string)
    ensures ReadValue(SkipSpace(text)) == ReadValue(text)
    ensures ReadValue(text).Some? ==> SkipSpace(text) != []
  {
    assert SkipSpace(SkipSpace(text)) == SkipSpace(text);
  }

  lemma {:induction false} ValueIsKept(text: string)
    requires ReadValue(text).Some?
    ensures Kept(ReadValue(Safe(text)), text, ReadValue(text).value.0, ReadValue(text).value.1)
    decreases |text|, 1
  {
    var s := SkipSpace(text);
    SpaceSkips(text);
    SpaceMakesNoDifference(text);
    BareValueIsKept(s);
    if Returns(s) < Returns(text) {
      BackslashReadsAsNothing(Safe(text));
    } else {
      SpaceMakesNoDifference(Safe(text));
    }
  }

  lemma {:induction false} ItemsAreKept(text: string)
    requires ReadItems(text).Some?
    ensures Kept(ReadItems(Safe(text)), text, ReadItems(text).value.0, ReadItems(text).value.1)
    decreases |text|, 2
  {
    ValueIsKept(text);
    var rest := ReadValue(text).value.1;
    SpaceSkips(rest);
    var s := SkipSpace(rest);
    HeadStays(s);
    if StartsWith(s, ',') {
      ItemsAreKept(s[1..]);
    }
  }

  lemma {:induction false} MemberIsKept(text: string)
    requires ReadMember(text).Some?
    ensures Kept(ReadMember(Safe(text)), text, ReadMember(text).value.0, ReadMember(text).value.1)
    decreases |text|, 1
  {
    SpaceSkips(text);
    var s := SkipSpace(text);
    HeadStays(s);
    CharsReadTheSame(s[1..]);
    var rest := ReadChars(s[1..]).value.1;
    SpaceSkips(rest);
    var t := SkipSpace(rest);
    HeadStays(t);
    ValueIsKept(t[1..]);
  }

  lemma {:induction false} MembersAreKept(text: string)
    requires ReadMembers(text).Some?
    ensures Kept(ReadMembers(Safe(text)), text, ReadMembers(text).value.0, ReadMembers(text).value.1)
    decreases |text|, 2
  {
    MemberIsKept(text);
    var rest := ReadMember(text).value.1;
    SpaceSkips(rest);
    var s := SkipSpace(rest);
    HeadStays(s);
    if StartsWith(s, ',') {
      MembersAreKept(s[1..]);
    }
  }

  /**
   Escaping a JSON document leaves it saying the same thing exactly when it has no raw
   carriage return, which can only stand between its tokens.
   */
  lemma EscapingKeepsDocumentsIff(text: string)
    requires Decode(text).Some?
    ensures Decode(Safe(text)) == Decode(text) <==> '\r' !in text
  {
    ValueIsKept(text);
    var rest := ReadValue(text).value.1;
    SpaceSkips(rest);
    ReturnsIffPresent(text);
  }

  // ----- the `--json` output ------------------------------------------------------------------------

  lemma EscapeCharHasNoReturn(c: char)
    ensures '\r' !in EscapeChar(c)
  {
    if c as int < 0x20 {
      FourDigits(c as int);
      var n := c as int;
      HexDigitReads(n / 0x1000);
      HexDigitReads(n / 0x100 % 16);
      HexDigitReads(n / 16 % 16);
      HexDigitReads(n % 16);
    }
  }

  lemma {:induction false} EscapedTextHasNoReturn(s: string)
    ensures '\r' !in EscapeAll(s)
  {
    if s != [] {
      EscapeCharHasNoReturn(s[0]);
      EscapedTextHasNoReturn(s[1..]);
    }
  }

  lemma {:induction false} NumberHasNoReturn(token: string)
    requires NumberLength(token) == |token|
    ensures '\r' !in token
  {
  }

  lemma {:induction false} EncodingHasNoReturn(v: Json)
    requires WellFormed(v)
    ensures '\r' !in Encode(v)
    decreases v, 2
  {
    match v
    case Number(token) => NumberHasNoReturn(token);
    case Str(text) => EscapedTextHasNoReturn(text);
    case Arr(items) =>
      if items != [] {
        ItemsHaveNoReturn(items);
      }
    case Obj(members) =>
      if members != [] {
        MembersHaveNoReturn(members);
      }
    case _ =>
  }

  lemma {:induction false} ItemsHaveNoReturn(items: seq<Json>)
    requires items != [] && forall i | 0 <= i < |items| :: WellFormed(items[i])
    ensures '\r' !in EncodeItems(items)
    decreases items, 3
  {
    EncodingHasNoReturn(items[0]);
    if |items| > 1 {
      ItemsHaveNoReturn(items[1..]);
    }
  }

  lemma {:induction false} MembersHaveNoReturn(members: seq<Member>)
    requires members != [] && forall i | 0 <= i < |members| :: WellFormed(members[i].value)
    ensures '\r' !in EncodeMembers(members)
    decreases members, 3
  {
    EscapedTextHasNoReturn(members[0].name);
    EncodingHasNoReturn(members[0].value);
    if |members| > 1 {
      MembersHaveNoReturn(members[1..]);
    }
  }

  /** What `--json` prints parses back to what was stored, and no two documents print alike. */
  lemma PrintedJsonParsesBack(v: Json)
    requires WellFormed(v)
    ensures Decode(Safe(Encode(v))) == Some(v) && Plain(Safe(Encode(v)))
    ensures forall w | WellFormed(w) && Safe(Encode(w)) == Safe(Encode(v)) :: w == v
  {
    ParsesBack(v);
    SafeIsPlain(Encode(v));
    forall w | WellFormed(w) && Safe(Encode(w)) == Safe(Encode(v)) ensures w == v {
      ParsesBack(w);
    }
  }

  lemma ParsesBack(v: Json)
    requires WellFormed(v)
    ensures Decode(Safe(Encode(v))) == Some(v)
  {
    DecodeUndoesEncode(v);
    EncodingHasNoReturn(v);
    EscapingKeepsDocumentsIff(Encode(v));
  }

  // ----- one record ------------------------------------------------------------------------------------

  /** A stored column: an instant, or a value that goes into the document as it is. */
  datatype Cell = Instant(micros: int) | Stored(value: Json)

  datatype Column = Column(name: string, cell: Cell)

  predicate Printable(record: seq<Column>) {
    forall i | 0 <= i < |record| && record[i].cell.Stored? :: WellFormed(record[i].cell.value)
  }

  function CellValue(cell: Cell, iso: int -> string): Json {
    if cell.Instant? then Str(iso(cell.micros)) else cell.value
  }

  /** Every column of the record in order, instants as text (`iso` renders them). */
  method RecordDocument(record: seq<Column>, iso: int -> string) returns (document: seq<Member>)
    ensures |document| == |record|
    ensures forall i | 0 <= i < |record| ::
              document[i].name == record[i].name && document[i].value == CellValue(record[i].cell, iso)
  {
    document := [];
    for i := 0 to |record|
      invariant |document| == i
      invariant forall k | 0 <= k < i ::
                  document[k].name == record[k].name && document[k].value == CellValue(record[k].cell, iso)
    {
      document := document + [Member(record[i].name, CellValue(record[i].cell, iso))];
    }
  }

  /** `show --json`: one line, free of unsafe characters, that parses back to the record's document. */
  method ShowJson(record: seq<Column>, iso: int -> string) returns (line: string)
    requires Printable(record)
    ensures Plain(line)
    ensures exists document: seq<Member> ::
              && Decode(line) == Some(Obj(document))
              && |document| == |record|
              && forall i | 0 <= i < |record| ::
                   document[i].name == record[i].name && document[i].value == CellValue(record[i].cell, iso)
  {
    var document := RecordDocument(record, iso);
    line := Safe(Encode(Obj(document)));
    PrintedJsonParsesBack(Obj(document));
  }
}
