/** JSON.stringify of a flat object of strings and integers, and a reader for such texts that
    follows RFC 8259. Characters are Unicode scalar values, so no surrogate needs an escape of
    its own. */
module Json {
  import opened Prelude

  datatype Value = Str(text: string) | Num(number: int)

  datatype Member = Member(key: string, value: Value)

  // ---------------------------------------------------------------- writing

  function Hex(d: nat): char
    requires d < 16
  {
    "0123456789abcdef"[d]
  }

  /** The letter of a two-character escape, if the character has one. */
  function ShortEscape(c: char): Option<char> {
    if c == '\"' then Some('\"')
    else if c == '\\' then Some('\\')
    else if c as int == 8 then Some('b')
    else if c as int == 9 then Some('t')
    else if c as int == 10 then Some('n')
    else if c as int == 12 then Some('f')
    else if c as int == 13 then Some('r')
    else None
  }

  function EscapeChar(c: char): string {
    if ShortEscape(c).Some? then ['\\', ShortEscape(c).value]
    else if c as int < 32 then ['\\', 'u', '0', '0', Hex(c as int / 16), Hex(c as int % 16)]
    else [c]
  }

  /** The escaped characters of a string and its closing quote, followed by `rest`. */
  function EscapedThen(s: string, rest: string): string {
    if s == [] then ['\"'] + rest else EscapeChar(s[0]) + EscapedThen(s[1..], rest)
  }

  function QuotedThen(s: string, rest: string): string {
    ['\"'] + EscapedThen(s, rest)
  }

  predicate Digit(c: char) {
    '0' <= c <= '9'
  }

  function DigitChar(d: nat): (c: char)
    requires d < 10
    ensures Digit(c) && c as int == 48 + d
  {
    "0123456789"[d]
  }

  function Decimal(n: nat): string {
    if n < 10 then [DigitChar(n)] else Decimal(n / 10) + [DigitChar(n % 10)]
  }

  function IntegerThen(n: int, rest: string): string {
    if n < 0 then ['-'] + (Decimal(-n) + rest) else Decimal(n) + rest
  }

  function ValueThen(v: Value, rest: string): string {
    match v
    case Str(text) => QuotedThen(text, rest)
    case Num(number) => IntegerThen(number, rest)
  }

  function MemberThen(m: Member, rest: string): string {
    QuotedThen(m.key, [':'] + ValueThen(m.value, rest))
  }

  /** The members that follow the first, each after a comma, and the closing brace. */
  function More(ms: seq<Member>): string {
    if ms == [] then ['}'] else [','] + MemberThen(ms[0], More(ms[1..]))
  }

  function Stringify(ms: seq<Member>): string {
    if ms == [] then ['{'] + ['}'] else ['{'] + MemberThen(ms[0], More(ms[1..]))
  }

  // ---------------------------------------------------------------- reading

  /** What was read from the front of a text, and the rest of it. */
  datatype Parse<T> = Fail | Got(value: T, rest: string)

  predicate Starts(s: string, c: char) {
    s != "" && s[0] == c
  }

  /** Section 7 of RFC 8259: the characters that may follow a backslash, except u. */
  function Unescaped(c: char): Option<int> {
    match c
    case '\"' => Some(0x22)
    case '\\' => Some(0x5C)
    case '/' => Some(0x2F)
    case 'b' => Some(0x08)
    case 'f' => Some(0x0C)
    case 'n' => Some(0x0A)
    case 'r' => Some(0x0D)
    case 't' => Some(0x09)
    case _ => None
  }

  /** A hexadecimal digit of either case; 16 for anything else. */
  function HexValue(c: char): nat {
    if '0' <= c <= '9' then c as int - '0' as int
    else if 'a' <= c <= 'f' then c as int - 'a' as int + 10
    else if 'A' <= c <= 'F' then c as int - 'A' as int + 10
    else 16
  }

  /** The number that four hexadecimal digits stand for, unless it is a surrogate. */
  function FourHex(s: string): Option<int> {
    if |s| < 4 || exists i :: 0 <= i < 4 && HexValue(s[i]) == 16 then None
    else
      var x := ((HexValue(s[0]) * 16 + HexValue(s[1])) * 16 + HexValue(s[2])) * 16 + HexValue(s[3]);
      if 0xD800 <= x < 0xE000 || x >= 0x1_0000 then None else Some(x)
  }

  function Before(code: Option<int>, p: Parse<string>): Parse<string>
    requires code.Some? ==> 0 <= code.value < 0xD800 || 0xE000 <= code.value < 0x1_0000
  {
    if code.None? || p.Fail? then Fail else Got([code.value as char] + p.value, p.rest)
  }

  /** The characters of a string up to its closing quote. */
  function ReadChars(s: string): Parse<string>
    decreases |s|
  {
    if s == "" then Fail
    else if s[0] == '\"' then Got("", s[1..])
    else if s[0] == '\\' then
      if |s| >= 6 && s[1] == 'u' then Before(FourHex(s[2..]), ReadChars(s[6..]))
      else if |s| >= 2 then Before(Unescaped(s[1]), ReadChars(s[2..]))
      else Fail
    else if s[0] as int < 0x20 then Fail
    else
      var p := ReadChars(s[1..]);
      if p.Fail? then Fail else Got([s[0]] + p.value, p.rest)
  }

  function ReadString(s: string): Parse<string> {
    if Starts(s, '\"') then ReadChars(s[1..]) else Fail
  }

  /** The digits at the front, after digits that stand for `before`. */
  function ReadDigits(s: string, before: nat): Parse<int>
    decreases |s|
  {
    if s != "" && '0' <= s[0] <= '9' then ReadDigits(s[1..], before * 10 + (s[0] as int - '0' as int))
    else Got(before, s)
  }

  /** Section 6 of RFC 8259, for integers: no digit may follow a leading zero. */
  function ReadNatural(s: string): Parse<int> {
    if s == "" || !('0' <= s[0] <= '9') then Fail
    else if s[0] == '0' && |s| > 1 && '0' <= s[1] <= '9' then Fail
    else ReadDigits(s, 0)
  }

  function ReadInteger(s: string): Parse<int> {
    if Starts(s, '-') then
      var p := ReadNatural(s[1..]);
      if p.Fail? then Fail else Got(-p.value, p.rest)
    else ReadNatural(s)
  }

  function ReadValue(s: string): Parse<Value> {
    if Starts(s, '\"') then
      var p := ReadString(s);
      if p.Fail? then Fail else Got(Str(p.value), p.rest)
    else
      var p := ReadInteger(s);
      if p.Fail? then Fail else Got(Num(p.value), p.rest)
  }

  function ReadMember(s: string): Parse<Member> {
    var key := ReadString(s);
    if key.Fail? || !Starts(key.rest, ':') then Fail
    else
      var p := ReadValue(key.rest[1..]);
      if p.Fail? then Fail else Got(Member(key.value, p.value), p.rest)
  }

  /** The members after the first, up to the closing brace, which ends the text. */
  function ReadMore(s: string): Option<seq<Member>>
    decreases |s|
  {
    if s == "}" then Some([])
    else if Starts(s, ',') then
      var m := ReadMember(s[1..]);
      if m.Fail? || |m.rest| >= |s| then None
      else
        var more := ReadMore(m.rest);
        if more.None? then None else Some([m.value] + more.value)
    else None
  }

  /** An object of strings and integers, written without white space. */
  function Read(s: string): Option<seq<Member>> {
    if s == "{}" then Some([])
    else if Starts(s, '{') then
      var m := ReadMember(s[1..]);
      if m.Fail? then None
      else
        var more := ReadMore(m.rest);
        if more.None? then None else Some([m.value] + more.value)
    else None
  }

  // ---------------------------------------------------------------- reading what was written

  lemma HexReads(d: nat)
    requires d < 16
    ensures HexValue(Hex(d)) == d
  {
  }

  lemma FourHexReads(x: nat, rest: string)
    requires x < 256
    ensures FourHex(['0', '0', Hex(x / 16), Hex(x % 16)] + rest) == Some(x)
  {
    HexReads(x / 16);
    HexReads(x % 16);
    hide Hex;
    var s := ['0', '0', Hex(x / 16), Hex(x % 16)] + rest;
    assert HexValue(s[0]) == 0 && HexValue(s[1]) == 0 && HexValue(s[2]) == x / 16 && HexValue(s[3]) == x % 16;
  }

  lemma LongEscapeReads(c: char, rest: string)
    requires c as int < 32
    ensures ReadChars(['\\', 'u', '0', '0', Hex(c as int / 16), Hex(c as int % 16)] + rest)
         == Before(Some(c as int), ReadChars(rest))
  {
    hide Hex, FourHex;
    var digits := ['0', '0', Hex(c as int / 16), Hex(c as int % 16)];
    var s := ['\\', 'u', '0', '0', Hex(c as int / 16), Hex(c as int % 16)] + rest;
    FourHexReads(c as int, rest);
    assert s[2..] == digits + rest && s[6..] == rest;
  }

  lemma ShortEscapeReads(c: char, rest: string)
    requires ShortEscape(c).Some?
    ensures ReadChars(['\\', ShortEscape(c).value] + rest) == Before(Some(c as int), ReadChars(rest))
  {
    var s := ['\\', ShortEscape(c).value] + rest;
    assert s[2..] == rest && Unescaped(s[1]) == Some(c as int);
  }

  /** An escape stands for its character. */
  lemma EscapeReads(c: char, rest: string)
    ensures var p := ReadChars(rest);
            ReadChars(EscapeChar(c) + rest) == if p.Fail? then Fail else Got([c] + p.value, p.rest)
  {
    if ShortEscape(c).Some? {
      hide ReadChars;
      ShortEscapeReads(c, rest);
    } else if c as int < 32 {
      hide ReadChars, Hex;
      LongEscapeReads(c, rest);
    } else {
      assert ([c] + rest)[1..] == rest;
    }
  }

  /** A quoted string and what follows it can be read back. */
  lemma {:induction false} EscapedReads(s: string, rest: string)
    ensures ReadChars(EscapedThen(s, rest)) == Got(s, rest)
  {
    if s == [] {
      assert (['\"'] + rest)[1..] == rest;
    } else {
      EscapedReads(s[1..], rest);
      hide ReadChars, EscapeChar;
      EscapeReads(s[0], EscapedThen(s[1..], rest));
      assert s == [s[0]] + s[1..];
    }
  }

  lemma QuotedReads(s: string, rest: string)
    ensures ReadString(QuotedThen(s, rest)) == Got(s, rest)
  {
    assert QuotedThen(s, rest)[1..] == EscapedThen(s, rest);
    EscapedReads(s, rest);
  }

  predicate NoDigit(rest: string) {
    rest == "" || !Digit(rest[0])
  }

  lemma DigitReads(d: nat, rest: string, before: nat)
    requires d < 10
    ensures ReadDigits([DigitChar(d)] + rest, before) == ReadDigits(rest, before * 10 + d)
  {
    assert ([DigitChar(d)] + rest)[1..] == rest;
  }

  lemma {:induction false} DecimalReads(n: nat, rest: string)
    ensures ReadDigits(Decimal(n) + rest, 0) == ReadDigits(rest, n)
  {
    hide ReadDigits;
    if n < 10 {
      DigitReads(n, rest, 0);
    } else {
      var d := DigitChar(n % 10);
      assert Decimal(n) + rest == Decimal(n / 10) + ([d] + rest);
      DecimalReads(n / 10, [d] + rest);
      DigitReads(n % 10, rest, n / 10);
    }
  }

  /** A number is written with digits only, and with a leading zero only if it is zero. */
  lemma {:induction false} DecimalIsCanonical(n: nat)
    ensures Decimal(n) != "" && forall i :: 0 <= i < |Decimal(n)| ==> '0' <= Decimal(n)[i] <= '9'
    ensures Decimal(n)[0] == '0' <==> n == 0
    ensures n == 0 ==> |Decimal(n)| == 1
  {
    if n >= 10 {
      DecimalIsCanonical(n / 10);
    }
  }

  lemma NaturalReads(n: nat, rest: string)
    requires NoDigit(rest)
    ensures ReadNatural(Decimal(n) + rest) == Got(n, rest)
  {
    DecimalIsCanonical(n);
    DecimalReads(n, rest);
    hide Decimal;
    var s := Decimal(n) + rest;
    assert s[0] == Decimal(n)[0];
    assert n == 0 ==> s[1..] == rest;
  }

  lemma IntegerReads(n: int, rest: string)
    requires NoDigit(rest)
    ensures ReadInteger(IntegerThen(n, rest)) == Got(n, rest)
    ensures !Starts(IntegerThen(n, rest), '\"')
  {
    hide Decimal, ReadNatural;
    if n < 0 {
      NaturalReads(-n, rest);
      assert IntegerThen(n, rest)[1..] == Decimal(-n) + rest;
    } else {
      NaturalReads(n, rest);
      DecimalIsCanonical(n);
      assert IntegerThen(n, rest)[0] == Decimal(n)[0];
    }
  }

  lemma MemberReads(m: Member, rest: string)
    requires NoDigit(rest)
    ensures ReadMember(MemberThen(m, rest)) == Got(m, rest)
  {
    hide ReadString, ReadInteger;
    var tail := [':'] + ValueThen(m.value, rest);
    QuotedReads(m.key, tail);
    assert tail[1..] == ValueThen(m.value, rest);
    match m.value
    case Str(text) => QuotedReads(text, rest);
    case Num(number) => IntegerReads(number, rest);
  }

  lemma EscapedLength(s: string, rest: string)
    ensures |EscapedThen(s, rest)| > |rest|
  {
  }

  lemma MemberLength(m: Member, rest: string)
    ensures |MemberThen(m, rest)| > |rest|
  {
    hide EscapedThen, Decimal;
    EscapedLength(m.key, [':'] + ValueThen(m.value, rest));
    if m.value.Str? {
      EscapedLength(m.value.text, rest);
    }
  }

  lemma {:induction false} MoreReads(ms: seq<Member>)
    ensures NoDigit(More(ms)) && ReadMore(More(ms)) == Some(ms)
  {
    if ms != [] {
      var rest := More(ms[1..]);
      MoreReads(ms[1..]);
      hide ReadMember, MemberThen;
      MemberReads(ms[0], rest);
      MemberLength(ms[0], rest);
      assert More(ms)[1..] == MemberThen(ms[0], rest);
      assert ms == [ms[0]] + ms[1..];
    }
  }

  /** The round trip: what is written can be read back, member by member. */
  lemma StringifyReads(ms: seq<Member>)
    ensures Read(Stringify(ms)) == Some(ms)
  {
    if ms != [] {
      var rest := More(ms[1..]);
      MoreReads(ms[1..]);
      MemberReads(ms[0], rest);
      hide ReadMember, ReadMore, EscapedThen, ValueThen, More;
      assert Stringify(ms)[1..] == MemberThen(ms[0], rest);
      assert Stringify(ms)[1] == '\"';
      assert ms == [ms[0]] + ms[1..];
    }
  }

  /** Different member lists are written as different texts. */
  lemma StringifyInjective(ms: seq<Member>, ns: seq<Member>)
    requires Stringify(ms) == Stringify(ns)
    ensures ms == ns
  {
    hide Read, Stringify;
    StringifyReads(ms);
    StringifyReads(ns);
  }

  /** The text is the one JSON.stringify writes, among those that read the same: a character is
      escaped only if it must be, by its short escape if it has one, and otherwise by four
      lower-case hexadecimal digits. */
  lemma EscapesAreCanonical(c: char)
    ensures c as int >= 0x20 && c != '\"' && c != '\\' ==> EscapeChar(c) == [c]
    ensures c in {'\"', '\\'} || c as int in {0x08, 0x09, 0x0A, 0x0C, 0x0D} ==> |EscapeChar(c)| == 2
    ensures c as int < 0x20 && c as int !in {0x08, 0x09, 0x0A, 0x0C, 0x0D} ==>
              && |EscapeChar(c)| == 6
              && forall i :: 2 <= i < 6 ==> '0' <= EscapeChar(c)[i] <= '9' || 'a' <= EscapeChar(c)[i] <= 'f'
  {
  }
}
