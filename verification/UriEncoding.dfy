/** Escaping of the separator characters in the fields of a user agent string. */
module UriEncoding {

  const NUL := '\0'
  const NUM_CHARS_IN_CODE := 3

  datatype Encoding = Encoding(ch: char, code: string)

  const ENCODINGS := [Encoding('/', "%2F"), Encoding('+', "%2B"), Encoding('|', "%7C"), Encoding('%', "%25")]

  function Code(c: char): (code: string)
    ensures |code| == 1 || |code| == NUM_CHARS_IN_CODE
  {
    if c == '/' then "%2F"
    else if c == '+' then "%2B"
    else if c == '|' then "%7C"
    else if c == '%' then "%25"
    else [c]
  }

  function Encode(s: string): string {
    if s == "" then "" else Encode(s[..|s| - 1]) + Code(s[|s| - 1])
  }

  // ----- percent-decoding, section 2.1 of RFC 3986 -----

  function HexDigit(c: char): (d: int)
    ensures -1 <= d < 16
  {
    if '0' <= c <= '9' then c as int - '0' as int
    else if 'A' <= c <= 'F' then c as int - 'A' as int + 10
    else if 'a' <= c <= 'f' then c as int - 'a' as int + 10
    else -1
  }

  predicate StartsTriplet(s: string) {
    |s| >= 3 && s[0] == '%' && HexDigit(s[1]) >= 0 && HexDigit(s[2]) >= 0
  }

  function Decode(s: string): string {
    if s == "" then ""
    else if StartsTriplet(s) then [(16 * HexDigit(s[1]) + HexDigit(s[2])) as char] + Decode(s[3..])
    else [s[0]] + Decode(s[1..])
  }

  lemma DecodeCode(c: char, rest: string)
    ensures Decode(Code(c) + rest) == [c] + Decode(rest)
  {
    var s := Code(c) + rest;
    if c in "/+|%" {
      assert StartsTriplet(s) && s[3..] == rest;
      assert (16 * HexDigit(s[1]) + HexDigit(s[2])) as char == c;
    } else {
      assert s[0] == c && s[1..] == rest;
    }
  }

  lemma Regroup(a: string, b: string, c: string)
    ensures (a + b) + c == a + (b + c)
  {
  }

  lemma {:induction false} DecodeEncoded(s: string, rest: string)
    ensures Decode(Encode(s) + rest) == s + Decode(rest)
  {
    if s == "" {
      assert Encode(s) + rest == rest;
    } else {
      var n := |s| - 1;
      Regroup(Encode(s[..n]), Code(s[n]), rest);
      DecodeEncoded(s[..n], Code(s[n]) + rest);
      DecodeCode(s[n], rest);
      Regroup(s[..n], [s[n]], Decode(rest));
      assert s == s[..n] + [s[n]];
    }
  }

  /** Decoding undoes the encoding of any string. */
  lemma EncodeRoundTrip(s: string)
    ensures Decode(Encode(s)) == s
  {
    DecodeEncoded(s, "");
    assert Encode(s) + "" == Encode(s) && s + Decode("") == s;
  }

  /** No separator survives, and every percent sign starts one of the four codes. */
  ghost predicate Escaped(e: string) {
    forall i :: 0 <= i < |e| ==>
      && e[i] != '/' && e[i] != '+' && e[i] != '|'
      && (e[i] == '%' ==> i + 3 <= |e| && e[i..i + 3] in {"%2F", "%2B", "%7C", "%25"})
  }

  lemma CodeIsEscaped(c: char)
    ensures Escaped(Code(c))
  {
    var e := Code(c);
    if c in "/+|%" {
      assert e[0..3] == e;
    }
  }

  lemma EscapedJoin(a: string, b: string)
    requires Escaped(a) && Escaped(b)
    ensures Escaped(a + b)
  {
    var e := a + b;
    forall i | 0 <= i < |e|
      ensures e[i] != '/' && e[i] != '+' && e[i] != '|'
      ensures e[i] == '%' ==> i + 3 <= |e| && e[i..i + 3] in {"%2F", "%2B", "%7C", "%25"}
    {
      if i < |a| {
        assert e[i] == a[i];
        if e[i] == '%' {
          assert e[i..i + 3] == a[i..i + 3];
        }
      } else {
        var j := i - |a|;
        assert e[i] == b[j];
        if e[i] == '%' {
          assert e[i..i + 3] == b[j..j + 3];
        }
      }
    }
  }

  lemma {:induction false} EncodedIsEscaped(s: string)
    ensures Escaped(Encode(s))
  {
    if s != "" {
      var n := |s| - 1;
      EncodedIsEscaped(s[..n]);
      CodeIsEscaped(s[n]);
      EscapedJoin(Encode(s[..n]), Code(s[n]));
    }
  }

  // ----- truncation -----

  lemma {:induction false} EncodingGrows(s: string, j: nat)
    requires j <= |s|
    ensures |Encode(s[..j])| + (|s| - j) <= |Encode(s)|
  {
    if j == |s| {
      assert s[..j] == s;
    } else {
      var n := |s| - 1;
      EncodingGrows(s[..n], j);
      assert s[..n][..j] == s[..j];
    }
  }

  /** The first `k` characters are the longest prefix whose encoding fits. */
  ghost predicate LongestFit(text: string, size: nat, k: nat) {
    && k <= |text| && |Encode(text[..k])| < size
    && forall j :: k < j <= |text| ==> |Encode(text[..j])| >= size
  }

  /** That length, found by dropping characters from the end. */
  function FitLength(text: string, size: nat): (k: nat)
    requires size > 0
    ensures LongestFit(text, size, k)
  {
    if |Encode(text)| < size then
      assert text[..|text|] == text;
      |text|
    else
      var k := FitLength(text[..|text| - 1], size);
      ShorterFits(text, size, k);
      k
  }

  lemma ShorterFits(text: string, size: nat, k: nat)
    requires text != "" && |Encode(text)| >= size && LongestFit(text[..|text| - 1], size, k)
    ensures LongestFit(text, size, k)
  {
    var shorter := text[..|text| - 1];
    assert shorter[..k] == text[..k];
    forall j | k < j <= |text| ensures |Encode(text[..j])| >= size {
      if j <= |shorter| {
        assert shorter[..j] == text[..j];
      } else {
        assert text[..j] == text;
      }
    }
  }

  lemma NoLongerFit(text: string, size: nat, k: nat)
    requires k < |text| && |Encode(text[..k])| < size && |Encode(text[..k])| + |Code(text[k])| >= size
    ensures LongestFit(text, size, k)
  {
    assert text[..k + 1][..k] == text[..k];
    forall j | k < j <= |text| ensures |Encode(text[..j])| >= size {
      EncodingGrows(text[..j], k + 1);
      assert text[..j][..k + 1] == text[..k + 1];
    }
  }

  ghost predicate Terminated(value: seq<char>, text: string) {
    |text| < |value| && value[..|text|] == text && value[|text|] == NUL && NUL !in text
  }

  lemma TextAt(value: array<char>, text: string, k: nat)
    requires Terminated(value[..], text) && k <= |text|
    ensures k < value.Length && value[k] == (if k < |text| then text[k] else NUL)
    ensures value[k] == NUL <==> k == |text|
  {
    assert value[..][k] == value[k];
    assert k < |text| ==> value[..|text|][k] == text[k] && text[k] in text;
  }

  lemma EncodeStep(text: string, k: nat)
    requires k < |text|
    ensures Encode(text[..k + 1]) == Encode(text[..k]) + Code(text[k])
  {
    assert text[..k + 1][..k] == text[..k];
  }

  // ----- the routine -----

  /** Looks a character up in the table of encodings. */
  method FindCode(c: char) returns (escchar: nat)
    ensures escchar <= |ENCODINGS|
    ensures Code(c) == if escchar == |ENCODINGS| then [c] else ENCODINGS[escchar].code
    ensures escchar < |ENCODINGS| ==> |Code(c)| == NUM_CHARS_IN_CODE
  {
    escchar := 0;
    while escchar < |ENCODINGS| && ENCODINGS[escchar].ch != c
      invariant escchar <= |ENCODINGS|
      invariant forall e :: 0 <= e < escchar ==> ENCODINGS[e].ch != c
    {
      escchar := escchar + 1;
    }
    if escchar == |ENCODINGS| {
      assert ENCODINGS[0].ch != c && ENCODINGS[1].ch != c && ENCODINGS[2].ch != c && ENCODINGS[3].ch != c;
    }
  }

  method PutCode(buffer: array<char>, outpos: nat, code: string)
    requires outpos + |code| < buffer.Length
    modifies buffer
    ensures buffer[..outpos] == old(buffer[..outpos])
    ensures buffer[..outpos + |code|] == old(buffer[..outpos]) + code
  {
    var codepos := 0;
    while codepos < |code|
      invariant 0 <= codepos <= |code|
      invariant buffer[..outpos + codepos] == old(buffer[..outpos]) + code[..codepos]
    {
      buffer[outpos + codepos] := code[codepos];
      codepos := codepos + 1;
    }
  }

  /** Appends the encoding of one character, if there is room for it. */
  method EncodeChar(c: char, buffer: array<char>, outpos: nat) returns (ok: bool, outpos': nat)
    requires outpos + 1 < buffer.Length
    modifies buffer
    ensures ok <==> outpos + |Code(c)| < buffer.Length
    ensures if ok then outpos' == outpos + |Code(c)| && buffer[..outpos'] == old(buffer[..outpos]) + Code(c)
            else outpos' == outpos && buffer[..outpos] == old(buffer[..outpos])
  {
    var escchar := FindCode(c);
    if escchar == |ENCODINGS| {
      buffer[outpos] := c;
      return true, outpos + 1;
    }
    if outpos + NUM_CHARS_IN_CODE >= buffer.Length {
      return false, outpos;
    }
    PutCode(buffer, outpos, ENCODINGS[escchar].code);
    return true, outpos + NUM_CHARS_IN_CODE;
  }

  /** Encodes into a buffer as much of the text as fits. */
  method EncodeInto(value: array<char>, size: nat, buffer: array<char>, ghost text: string)
    returns (outpos: nat)
    requires Terminated(value[..], text) && 0 < size == buffer.Length <= value.Length && buffer != value
    modifies buffer
    ensures outpos < size && buffer[..outpos] == Encode(text[..FitLength(text, size)])
  {
    var inpos := 0;
    outpos := 0;
    while value[inpos] != NUL && outpos < size - 1
      invariant 0 <= inpos <= |text| && outpos < size
      invariant outpos == |Encode(text[..inpos])| && buffer[..outpos] == Encode(text[..inpos])
      decreases |text| - inpos
    {
      TextAt(value, text, inpos);
      EncodeStep(text, inpos);
      var ok;
      ok, outpos := EncodeChar(value[inpos], buffer, outpos);
      if !ok {
        break;
      }
      inpos := inpos + 1;
    }
    TextAt(value, text, inpos);
    if inpos < |text| {
      NoLongerFit(text, size, inpos);
    }
    assert LongestFit(text, size, inpos);
  }

  method CopyBack(value: array<char>, buffer: array<char>, count: nat)
    requires count < buffer.Length <= value.Length && buffer != value
    modifies value
    ensures value[..] == buffer[..count] + [NUL] + old(value[..])[count + 1..]
  {
    var outpos := count;
    value[outpos] := NUL;
    while outpos > 0
      invariant 0 <= outpos <= count
      invariant value[outpos..count] == buffer[outpos..count]
      invariant value[count] == NUL && value[count + 1..] == old(value[..])[count + 1..]
    {
      outpos := outpos - 1;
      value[outpos] := buffer[outpos];
    }
    assert value[..] == value[0..count] + [value[count]] + value[count + 1..];
  }

  /** Replaces the text by the encoding of its longest prefix for which there is
      room, and ends it; nothing past the end mark changes. */
  method EncodeInPlace(value: array<char>, size: nat, ghost text: string)
    requires Terminated(value[..], text) && 0 < size <= value.Length
    modifies value
    ensures var e := Encode(text[..FitLength(text, size)]);
      |e| < size && value[..] == e + [NUL] + old(value[..])[|e| + 1..]
  {
    var buffer := new char[size];
    var outpos := EncodeInto(value, size, buffer, text);
    CopyBack(value, buffer, outpos);
  }

  /** What a reader gets back: decoding the text found before the end mark gives
      the longest prefix that had room, and no separator is left in it. */
  lemma EncodedTextReadsBack(value: seq<char>, rest: seq<char>, text: string, size: nat)
    requires NUL !in text && size > 0
    requires value == Encode(text[..FitLength(text, size)]) + [NUL] + rest
    ensures var k := FitLength(text, size);
      && Terminated(value, Encode(text[..k])) && Escaped(Encode(text[..k]))
      && Decode(Encode(text[..k])) == text[..k]
      && (|Encode(text)| < size <==> k == |text|)
  {
    var k := FitLength(text, size);
    EncodeRoundTrip(text[..k]);
    EncodedIsEscaped(text[..k]);
    EncodedHasNoEnd(text[..k]);
    assert text[..|text|] == text;
  }

  lemma {:induction false} EncodedHasNoEnd(s: string)
    requires NUL !in s
    ensures NUL !in Encode(s)
  {
    if s != "" {
      EncodedHasNoEnd(s[..|s| - 1]);
    }
  }
}
