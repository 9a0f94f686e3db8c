/** Percent-encoding of the separators of an XTRA user-agent string, in place and within a fixed size. */
module EscapeEncoder {

  const ENCODINGS: seq<(char, string)> := [('/', "%2F"), ('+', "%2B"), ('|', "%7C"), ('%', "%25")]

  // ---------- What the encoding is ----------

  predicate IsSeparator(c: char) {
    c == '/' || c == '+' || c == '|'
  }

  function HexDigit(n: nat): char
    requires n < 16
  {
    "0123456789ABCDEF"[n]
  }

  /** Percent-encoding of one octet, as in section 2.1 of RFC 3986. */
  function PercentCode(c: char): string
    requires c as int < 256
  {
    ['%', HexDigit(c as int / 16), HexDigit(c as int % 16)]
  }

  function Code(c: char): string {
    if IsSeparator(c) || c == '%' then PercentCode(c) else [c]
  }

  function Encode(s: string): string {
    if s == [] then [] else Code(s[0]) + Encode(s[1..])
  }

  /** How many characters fit when no code may be split. */
  function Fit(s: string, room: nat): (n: nat)
    ensures n <= |s|
  {
    if s == [] || |Code(s[0])| > room then 0 else 1 + Fit(s[1..], room - |Code(s[0])|)
  }

  /** The C string held in a buffer: up to the first NUL, or all of it. */
  function Text(s: string): (t: string)
    ensures t <= s && (|t| < |s| ==> s[|t|] == '\0')
    ensures forall i | 0 <= i < |t| :: t[i] != '\0'
  {
    if s == [] || s[0] == '\0' then [] else [s[0]] + Text(s[1..])
  }

  function HexValue(c: char): int {
    if '0' <= c <= '9' then c as int - '0' as int
    else if 'A' <= c <= 'F' then c as int - 'A' as int + 10
    else if 'a' <= c <= 'f' then c as int - 'a' as int + 10
    else -1
  }

  /** A decoder for any percent-encoded text. */
  function Decode(s: string): string {
    if s == [] then []
    else if s[0] == '%' && |s| >= 3 && HexValue(s[1]) >= 0 && HexValue(s[2]) >= 0
    then [(16 * HexValue(s[1]) + HexValue(s[2])) as char] + Decode(s[3..])
    else [s[0]] + Decode(s[1..])
  }

  // ---------- What it promises ----------

  lemma {:induction false} DecodeEncode(s: string)
    ensures Decode(Encode(s)) == s
  {
    if s != [] {
      var code, rest := Code(s[0]), Encode(s[1..]);
      var e := Encode(s);
      DecodeEncode(s[1..]);
      assert e[|code|..] == rest;
      if IsSeparator(s[0]) || s[0] == '%' {
        assert e[0] == code[0] && e[1] == code[1] && e[2] == code[2];
        SeparatorCodes(s[0]);
      } else {
        assert e[0] == s[0];
      }
    }
  }

  lemma SeparatorCodes(c: char)
    requires IsSeparator(c) || c == '%'
    ensures HexValue(PercentCode(c)[1]) >= 0 && HexValue(PercentCode(c)[2]) >= 0
    ensures 16 * HexValue(PercentCode(c)[1]) + HexValue(PercentCode(c)[2]) == c as int
    ensures forall d | d in PercentCode(c) :: !IsSeparator(d) && d != '\0'
  {
  }

  /** The four characters have these codes, and every other one is its own. */
  lemma OnlyFourAreEncoded(c: char)
    ensures Code('/') == "%2F" && Code('+') == "%2B" && Code('|') == "%7C" && Code('%') == "%25"
    ensures c != '/' && c != '+' && c != '|' && c != '%' ==> Code(c) == [c]
  {
  }

  lemma {:induction false} NoSeparatorRemains(s: string, c: char)
    requires c in Encode(s)
    ensures !IsSeparator(c) && (c == '\0' ==> c in s)
  {
    if c in Code(s[0]) {
      if IsSeparator(s[0]) || s[0] == '%' { SeparatorCodes(s[0]); }
    } else {
      NoSeparatorRemains(s[1..], c);
    }
  }

  /** The prefix that fits, and no longer one does. */
  lemma {:induction false} FitIsLongest(s: string, room: nat, n: nat)
    requires n <= |s|
    ensures |Encode(s[..n])| <= room <==> n <= Fit(s, room)
  {
    if n > 0 {
      assert s[..n][1..] == s[1..][..n - 1];
      if |Code(s[0])| <= room {
        FitIsLongest(s[1..], room - |Code(s[0])|, n - 1);
      }
    }
  }

  /** What is in the buffer afterwards reads back as the longest prefix of the text that fits. */
  lemma OutputReadsBack(text: string, size: nat, after: string)
    requires size > 0 && '\0' !in text
    requires Encode(text[..Fit(text, size - 1)]) + ['\0'] <= after
    ensures var out := Text(after);
      && |out| < size
      && (forall c | c in out :: !IsSeparator(c))
      && Decode(out) == text[..Fit(text, size - 1)]
      && (forall n | Fit(text, size - 1) < n <= |text| :: |Encode(text[..n])| > size - 1)
  {
    var kept := text[..Fit(text, size - 1)];
    var e := Encode(kept);
    forall c | c in e ensures !IsSeparator(c) && c != '\0' {
      NoSeparatorRemains(kept, c);
    }
    TextStops(e, after);
    DecodeEncode(kept);
    FitIsLongest(text, size - 1, |kept|);
    forall n | |kept| < n <= |text| ensures |Encode(text[..n])| > size - 1 {
      FitIsLongest(text, size - 1, n);
    }
  }

  lemma {:induction false} TextStops(e: string, after: string)
    requires '\0' !in e && e + ['\0'] <= after
    ensures Text(after) == e
  {
    if e != [] {
      assert after[0] == e[0];
      TextStops(e[1..], after[1..]);
    } else {
      assert after[0] == (e + ['\0'])[0];
    }
  }

  // ---------- The algorithm ----------

  lemma {:induction false} EncodeSnoc(s: string, n: nat)
    requires n < |s|
    ensures Encode(s[..n + 1]) == Encode(s[..n]) + Code(s[n])
  {
    if n == 0 {
      assert s[..1][1..] == [];
    } else {
      assert s[..n + 1][1..] == s[1..][..n] && s[..n][1..] == s[1..][..n - 1];
      EncodeSnoc(s[1..], n - 1);
    }
  }

  /** Looks the character up in the table. */
  method FindEncoding(ch: char) returns (escchar: nat)
    ensures escchar <= |ENCODINGS|
    ensures Code(ch) == if escchar < |ENCODINGS| then ENCODINGS[escchar].1 else [ch]
    ensures escchar < |ENCODINGS| ==> |ENCODINGS[escchar].1| == 3
  {
    escchar := 0;
    while escchar < |ENCODINGS| && ENCODINGS[escchar].0 != ch
      invariant escchar <= |ENCODINGS|
      invariant forall i | 0 <= i < escchar :: ENCODINGS[i].0 != ch
    {
      escchar := escchar + 1;
    }
    assert escchar < |ENCODINGS| ==> escchar == 0 || escchar == 1 || escchar == 2 || escchar == 3;
    assert escchar == |ENCODINGS| ==>
      ENCODINGS[0].0 != ch && ENCODINGS[1].0 != ch && ENCODINGS[2].0 != ch && ENCODINGS[3].0 != ch;
  }

  method CopyCode(buffer: array<char>, outpos: nat, code: string)
    requires outpos + |code| < buffer.Length
    modifies buffer
    ensures buffer[..outpos + |code|] == old(buffer[..outpos]) + code
  {
    var codepos := 0;
    while outpos + codepos < buffer.Length - 1 && codepos < |code|
      invariant codepos <= |code|
      invariant buffer[..outpos + codepos] == old(buffer[..outpos]) + code[..codepos]
    {
      buffer[outpos + codepos] := code[codepos];
      codepos := codepos + 1;
    }
  }

  /** Writes the next character, or reports that it does not fit. */
  method Put(ch: char, size: nat, buffer: array<char>, outpos: nat) returns (fits: bool, next: nat)
    requires buffer.Length == size && outpos < size - 1
    modifies buffer
    ensures fits <==> outpos + |Code(ch)| < size
    ensures next == if fits then outpos + |Code(ch)| else outpos
    ensures buffer[..next] == old(buffer[..outpos]) + if fits then Code(ch) else []
  {
    var escchar := FindEncoding(ch);
    if escchar == |ENCODINGS| {
      buffer[outpos] := ch;
      return true, outpos + 1;
    }
    if outpos + 3 >= size { return false, outpos; }
    CopyCode(buffer, outpos, ENCODINGS[escchar].1);
    return true, outpos + 3;
  }

  lemma FitsExactly(text: string, room: nat, n: nat)
    requires n <= |text| && |Encode(text[..n])| <= room
    requires n < |text| ==> |Encode(text[..n + 1])| > room
    ensures n == Fit(text, room)
  {
    FitIsLongest(text, room, n);
    if n < |text| { FitIsLongest(text, room, n + 1); }
  }

  lemma CodeLength(c: char)
    ensures 1 <= |Code(c)| <= 3
  {
  }

  /** Encodes as much of the text as fits. */
  method Fill(value: array<char>, size: nat, buffer: array<char>, ghost text: string) returns (outpos: nat)
    requires 0 < size <= value.Length && buffer.Length == size && buffer != value
    requires |text| <= size && (|text| < size ==> value[|text|] == '\0')
    requires forall i | 0 <= i < |text| :: value[i] == text[i] != '\0'
    modifies buffer
    ensures outpos < size
    ensures buffer[..outpos] == Encode(text[..Fit(text, size - 1)])
  {
    var inpos, fits := 0, true;
    outpos := 0;
    while fits && value[inpos] != '\0' && outpos < size - 1
      invariant inpos <= outpos < size && inpos <= |text|
      invariant buffer[..outpos] == Encode(text[..inpos])
      invariant !fits ==> inpos < |text| && |Encode(text[..inpos + 1])| >= size
      decreases fits, |text| - inpos
    {
      EncodeSnoc(text, inpos);
      CodeLength(text[inpos]);
      fits, outpos := Put(value[inpos], size, buffer, outpos);
      if fits { inpos := inpos + 1; }
    }
    Filled(text, size - 1, inpos);
  }

  /** A prefix that leaves no room for the next character is the longest that fits. */
  lemma Filled(text: string, room: nat, n: nat)
    requires n <= |text| && |Encode(text[..n])| <= room
    requires n < |text| ==> |Encode(text[..n])| == room || |Encode(text[..n + 1])| > room
    ensures n == Fit(text, room)
  {
    if n < |text| {
      EncodeSnoc(text, n);
      CodeLength(text[n]);
    }
    FitsExactly(text, room, n);
  }

  /** The value becomes the encoding of the longest prefix of its text that fits, and a NUL. */
  method EncodeInPlace(value: array<char>, size: nat)
    requires 0 < size <= value.Length
    modifies value
    ensures var text := Text(old(value[..size]));
      var out := Encode(text[..Fit(text, size - 1)]) + ['\0'];
      |out| <= size && value[..] == out + old(value[|out|..])
  {
    var buffer := new char[size];
    ghost var text := Text(value[..size]);
    var outpos := Fill(value, size, buffer, text);
    CopyBack(value, buffer, outpos);
  }

  method CopyBack(value: array<char>, buffer: array<char>, n: nat)
    requires n < value.Length && n <= buffer.Length && buffer != value
    modifies value
    ensures value[..] == buffer[..n] + ['\0'] + old(value[n + 1..])
  {
    var outpos := n;
    value[outpos] := '\0';
    while outpos > 0
      invariant outpos <= n && value[n] == '\0'
      invariant forall i | outpos <= i < n :: value[i] == buffer[i]
      invariant forall i | n < i < value.Length :: value[i] == old(value[i])
    {
      outpos := outpos - 1;
      value[outpos] := buffer[outpos];
    }
  }
}
