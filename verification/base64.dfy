/** Base64 as sections 4 and 5 of RFC 4648 write it, and the reader that takes
    any of its four spellings. */
module Base64 {
  import opened Base
  import opened Text

  type Byte = b: int | 0 <= b < 256
  type Six = v: int | 0 <= v < 64

  // ---- Bytes and groups of six bits ------------------------------------------

  function Encode(bytes: seq<Byte>): (out: seq<Six>)
    ensures |out| == |bytes| / 3 * 4 + (if |bytes| % 3 == 0 then 0 else |bytes| % 3 + 1)
  {
    if |bytes| == 0 then []
    else if |bytes| == 1 then [bytes[0] / 4, bytes[0] % 4 * 16]
    else if |bytes| == 2 then [bytes[0] / 4, bytes[0] % 4 * 16 + bytes[1] / 16, bytes[1] % 16 * 4]
    else
      [bytes[0] / 4, bytes[0] % 4 * 16 + bytes[1] / 16, bytes[1] % 16 * 4 + bytes[2] / 64, bytes[2] % 64]
      + Encode(bytes[3..])
  }

  /** Bits left over in the last group are ignored; one group alone carries no
      whole byte and is refused. */
  function Decode(sixes: seq<Six>): Option<seq<Byte>> {
    if |sixes| == 0 then Some([])
    else if |sixes| == 1 then None
    else
      var b0: Byte := sixes[0] as int * 4 + sixes[1] / 16;
      if |sixes| == 2 then Some([b0])
      else
        var b1: Byte := sixes[1] as int % 16 * 16 + sixes[2] / 4;
        if |sixes| == 3 then Some([b0, b1])
        else
          var b2: Byte := sixes[2] as int % 4 * 64 + sixes[3];
          match Decode(sixes[4..])
          case None => None
          case Some(rest) => Some([b0, b1, b2] + rest)
  }

  lemma QuadHoldsThree(a: Byte, b: Byte, c: Byte)
    ensures a / 4 * 4 + (a % 4 * 16 + b / 16) / 16 == a
    ensures (a % 4 * 16 + b / 16) % 16 * 16 + (b % 16 * 4 + c / 64) / 4 == b
    ensures (b % 16 * 4 + c / 64) % 4 * 64 + c % 64 == c
  {
    assert (a % 4 * 16 + b / 16) / 16 == a % 4 && (a % 4 * 16 + b / 16) % 16 == b / 16;
    assert (b % 16 * 4 + c / 64) / 4 == b % 16 && (b % 16 * 4 + c / 64) % 4 == c / 64;
  }

  lemma {:induction false} DecodeUndoesEncode(bytes: seq<Byte>)
    ensures Decode(Encode(bytes)) == Some(bytes)
  {
    if |bytes| >= 3 {
      DecodeUndoesEncode(bytes[3..]);
      var sixes := Encode(bytes);
      assert sixes[4..] == Encode(bytes[3..]);
      QuadHoldsThree(bytes[0], bytes[1], bytes[2]);
      assert [bytes[0], bytes[1], bytes[2]] + bytes[3..] == bytes;
    } else if |bytes| == 2 {
      QuadHoldsThree(bytes[0], bytes[1], 0);
      assert bytes == [bytes[0], bytes[1]];
    } else if |bytes| == 1 {
      QuadHoldsThree(bytes[0], 0, 0);
      assert bytes == [bytes[0]];
    }
  }

  // ---- Letters -----------------------------------------------------------------

  function Letter(v: Six, url: bool): char {
    if v < 26 then 'A' + v as char
    else if v < 52 then 'a' + (v - 26) as char
    else if v < 62 then '0' + (v - 52) as char
    else if v == 62 then if url then '-' else '+'
    else if url then '_' else '/'
  }

  function LetterValue(c: char): Option<Six> {
    if 'A' <= c <= 'Z' then Some(c as int - 'A' as int)
    else if 'a' <= c <= 'z' then Some(c as int - 'a' as int + 26)
    else if '0' <= c <= '9' then Some(c as int - '0' as int + 52)
    else if c == '+' then Some(62)
    else if c == '/' then Some(63)
    else None
  }

  function ToStandard(c: char): char {
    if c == '-' then '+' else if c == '_' then '/' else c
  }

  function Letters(sixes: seq<Six>, url: bool): (s: string)
    ensures |s| == |sixes|
  {
    seq(|sixes|, i requires 0 <= i < |sixes| => Letter(sixes[i], url))
  }

  function Standardised(s: string): (t: string)
    ensures |t| == |s|
  {
    seq(|s|, i requires 0 <= i < |s| => ToStandard(s[i]))
  }

  /** Line breaks inside the text are skipped; any other stranger refuses it. */
  function Values(s: string): Option<seq<Six>> {
    if s == [] then Some([])
    else
      match Values(s[1..])
      case None => None
      case Some(rest) =>
        if s[0] == '\r' || s[0] == '\n' then Some(rest)
        else
          match LetterValue(s[0])
          case None => None
          case Some(v) => Some([v] + rest)
  }

  lemma {:induction false} ValuesOfLetters(sixes: seq<Six>, url: bool)
    ensures Values(Standardised(Letters(sixes, url))) == Some(sixes)
  {
    if sixes != [] {
      ValuesOfLetters(sixes[1..], url);
      assert Standardised(Letters(sixes, url))[1..] == Standardised(Letters(sixes[1..], url));
      assert LetterValue(ToStandard(Letter(sixes[0], url))) == Some(sixes[0]);
      assert [sixes[0]] + sixes[1..] == sixes;
    }
  }

  // ---- The reader --------------------------------------------------------------

  function TrimPadding(s: string): string {
    if s != [] && s[|s| - 1] == '=' then TrimPadding(s[..|s| - 1]) else s
  }

  function DecodeDigest(s: string): Option<seq<Byte>> {
    var t := TrimSpace(s);
    if t == [] then None
    else
      match Values(TrimPadding(Standardised(t)))
      case None => None
      case Some(sixes) => Decode(sixes)
  }

  predicate SameDigest(want: seq<Byte>, got: string) {
    DecodeDigest(got) == Some(want)
  }

  /** Letters and values are each other's, and nothing else has a value. */
  lemma LetterExactly(c: char)
    ensures forall v: Six :: LetterValue(c) == Some(v) <==> c == Letter(v, false)
  {
    forall v: Six
      ensures LetterValue(c) == Some(v) <==> c == Letter(v, false)
    {
      assert 'A' <= c <= 'Z' ==> c == 'A' + (c as int - 'A' as int) as char;
      assert 'a' <= c <= 'z' ==> c == 'a' + (c as int - 'a' as int) as char;
      assert '0' <= c <= '9' ==> c == '0' + (c as int - '0' as int) as char;
    }
  }

  function WithoutBreaks(s: string): string {
    if s == [] then [] else (if s[0] == '\r' || s[0] == '\n' then [] else [s[0]]) + WithoutBreaks(s[1..])
  }

  /** Line breaks inside a text are skipped, and then each letter counts; any stranger
      among them refuses the whole. */
  lemma {:induction false} ValuesExactly(s: string)
    ensures var letters := WithoutBreaks(s);
            match Values(s)
            case Some(sixes) =>
              |sixes| == |letters| && forall i :: 0 <= i < |letters| ==> letters[i] == Letter(sixes[i], false)
            case None => exists i :: 0 <= i < |letters| && LetterValue(letters[i]).None?
  {
    if s != [] {
      ValuesExactly(s[1..]);
      LetterExactly(s[0]);
      var rest := WithoutBreaks(s[1..]);
      if s[0] != '\r' && s[0] != '\n' {
        assert WithoutBreaks(s) == [s[0]] + rest;
        if Values(s[1..]).None? {
          var i :| 0 <= i < |rest| && LetterValue(rest[i]).None?;
          assert WithoutBreaks(s)[i + 1] == rest[i];
        } else if LetterValue(s[0]).None? {
          assert WithoutBreaks(s)[0] == s[0];
        }
      } else {
        assert WithoutBreaks(s) == rest;
      }
    }
  }

  /** Blanks alone are no digest, not even of nothing. */
  lemma BlanksAreNoDigest(s: string)
    requires AllSpaces(s)
    ensures DecodeDigest(s) == None
  {
    var i, j := TrimSpaceExactly(s);
  }

  // ---- All four spellings --------------------------------------------------------

  function Padding(n: nat): string {
    if n % 3 == 0 then "" else if n % 3 == 1 then "==" else "="
  }

  /** The text an encoder writes: section 4's alphabet or section 5's, with its
      padding or without. */
  function Spelling(bytes: seq<Byte>, url: bool, padded: bool): string {
    Letters(Encode(bytes), url) + if padded then Padding(|bytes|) else ""
  }

  lemma OnePadSkipped(s: string)
    ensures TrimPadding(s + "=") == TrimPadding(s)
  {
    assert (s + "=")[..|s + "="| - 1] == s;
  }

  lemma TrimPaddingSkips(body: string, n: nat)
    requires body != [] ==> body[|body| - 1] != '='
    ensures TrimPadding(body + Padding(n)) == body
  {
    if n % 3 == 0 {
      assert body + Padding(n) == body;
    } else if n % 3 == 1 {
      OnePadSkipped(body + "=");
      OnePadSkipped(body);
      assert body + "==" == body + "=" + "=";
    } else {
      OnePadSkipped(body);
    }
  }

  lemma LettersArePlain(v: Six, url: bool)
    ensures !IsSpace(Letter(v, url)) && ToStandard(Letter(v, url)) != '=' && Letter(v, url) != '='
  {
  }

  lemma SpellingHasPlainEnds(bytes: seq<Byte>, url: bool, n: nat)
    requires bytes != []
    ensures var text := Letters(Encode(bytes), url) + Padding(n);
            text != [] && !IsSpace(text[0]) && !IsSpace(text[|text| - 1])
  {
    var sixes := Encode(bytes);
    LettersArePlain(sixes[0], url);
    LettersArePlain(sixes[|sixes| - 1], url);
  }

  lemma PaddedLettersRead(bytes: seq<Byte>, url: bool, n: nat)
    requires bytes != []
    ensures var text := Letters(Encode(bytes), url) + Padding(n);
            && Values(TrimPadding(Standardised(text))) == Some(Encode(bytes))
            && Decode(Encode(bytes)) == Some(bytes)
  {
    var letters := Letters(Encode(bytes), url);
    LettersArePlain(Encode(bytes)[|letters| - 1], url);
    assert Standardised(letters + Padding(n)) == Standardised(letters) + Padding(n);
    TrimPaddingSkips(Standardised(letters), n);
    ValuesOfLetters(Encode(bytes), url);
    DecodeUndoesEncode(bytes);
  }

  /** A spelling choice is not an authentication claim: whichever of the four
      spellings of its bytes a peer sends, and whatever white space came with
      it, the same bytes are read. */
  lemma EverySpellingReadsTheSame(bytes: seq<Byte>, url: bool, padded: bool, before: string, after: string)
    requires bytes != [] && AllSpaces(before) && AllSpaces(after)
    ensures DecodeDigest(before + Spelling(bytes, url, padded) + after) == Some(bytes)
  {
    var n := if padded then |bytes| else 0;
    var letters := Letters(Encode(bytes), url);
    assert Spelling(bytes, url, padded) == letters + Padding(n);
    SpellingHasPlainEnds(bytes, url, n);
    TrimSpaceSkips(before, letters + Padding(n), after);
    PaddedLettersRead(bytes, url, n);
  }
}
