/**
 Text inside the generated PDF: escaping on the way in, the literal-string lexer of
 section 7.3.4.2 of ISO 32000-1 on the way out.  A byte is a character below 256.
 */
module PdfText {
  import opened Common

  // ---------- writing ----------

  /** Python's `s.replace(c, sub)` for a one-character `c`. */
  function ReplaceChar(s: string, c: char, sub: string): string {
    if s == [] then []
    else (if s[0] == c then sub else [s[0]]) + ReplaceChar(s[1..], c, sub)
  }

  /** Three replacements in sequence, backslash first. */
  function Escape(s: string): string {
    ReplaceChar(ReplaceChar(ReplaceChar(s, '\\', "\\\\"), '(', "\\("), ')', "\\)")
  }

  predicate Special(c: char) {
    c == '\\' || c == '(' || c == ')'
  }

  function EscapeChar(c: char): string {
    if Special(c) then ['\\', c] else [c]
  }

  /** The same escape, one character at a time. */
  function EscapeOnePass(s: string): string {
    if s == [] then [] else EscapeChar(s[0]) + EscapeOnePass(s[1..])
  }

  lemma {:induction false} ReplaceCharConcat(a: string, b: string, c: char, sub: string)
    ensures ReplaceChar(a + b, c, sub) == ReplaceChar(a, c, sub) + ReplaceChar(b, c, sub)
  {
    if a == [] {
      assert a + b == b;
    } else {
      assert (a + b)[1..] == a[1..] + b;
      ReplaceCharConcat(a[1..], b, c, sub);
    }
  }

  lemma {:induction false} EscapeConcat(a: string, b: string)
    ensures Escape(a + b) == Escape(a) + Escape(b)
  {
    ReplaceCharConcat(a, b, '\\', "\\\\");
    var a1, b1 := ReplaceChar(a, '\\', "\\\\"), ReplaceChar(b, '\\', "\\\\");
    ReplaceCharConcat(a1, b1, '(', "\\(");
    ReplaceCharConcat(ReplaceChar(a1, '(', "\\("), ReplaceChar(b1, '(', "\\("), ')', "\\)");
  }

  lemma ReplaceCharShort(s: string, c: char, sub: string)
    ensures |s| == 1 ==> ReplaceChar(s, c, sub) == if s[0] == c then sub else s
    ensures |s| == 2 ==> ReplaceChar(s, c, sub) ==
                         (if s[0] == c then sub else [s[0]]) + (if s[1] == c then sub else [s[1]])
  {
    if |s| == 1 {
      assert s[1..] == [] && s == [s[0]];
    } else if |s| == 2 {
      assert s[1..] == [s[1]] && s[1..][1..] == [];
    }
  }

  lemma EscapeSingle(c: char)
    ensures Escape([c]) == EscapeChar(c)
  {
    ReplaceCharShort([c], '\\', "\\\\");
    var one := ReplaceChar([c], '\\', "\\\\");
    ReplaceCharShort(one, '(', "\\(");
    var two := ReplaceChar(one, '(', "\\(");
    ReplaceCharShort(two, ')', "\\)");
  }

  /** The three sequential replacements never disturb each other. */
  lemma {:induction false} EscapeIsOnePass(s: string)
    ensures Escape(s) == EscapeOnePass(s)
  {
    if s != [] {
      assert s == [s[0]] + s[1..];
      EscapeConcat([s[0]], s[1..]);
      EscapeSingle(s[0]);
      EscapeIsOnePass(s[1..]);
    }
  }

  lemma {:induction false} EscapeLength(s: string)
    ensures |s| <= |EscapeOnePass(s)| <= 2 * |s|
  {
    if s != [] {
      EscapeLength(s[1..]);
    }
  }

  predicate IsByte(c: char) {
    c as int < 256
  }

  predicate AllBytes(s: string) {
    forall i :: 0 <= i < |s| ==> IsByte(s[i])
  }

  /** Python's `s.encode("latin-1", "replace")`. */
  function Latin1(s: string): (r: string)
    ensures |r| == |s| && AllBytes(r)
  {
    seq(|s|, i requires 0 <= i < |s| => if IsByte(s[i]) then s[i] else '?')
  }

  lemma EscapeCharLatin1(c: char)
    ensures Latin1(EscapeChar(c)) == EscapeChar(Latin1([c])[0])
  {
  }

  lemma Latin1Concat(a: string, b: string)
    ensures Latin1(a + b) == Latin1(a) + Latin1(b)
  {
  }

  /** Encoding after escaping is the same as escaping the encoded text. */
  lemma {:induction false} EscapeLatin1(s: string)
    ensures Latin1(EscapeOnePass(s)) == EscapeOnePass(Latin1(s))
  {
    if s != [] {
      var t := Latin1(s);
      EscapeLatin1(s[1..]);
      EscapeCharLatin1(s[0]);
      Latin1Concat(EscapeChar(s[0]), EscapeOnePass(s[1..]));
      assert t[0] == Latin1([s[0]])[0] && t[1..] == Latin1(s[1..]);
    }
  }

  // ---------- reading ----------

  datatype Literal = Malformed | Literal(text: string, rest: string) {
    function Prepend(s: string): Literal {
      match this
      case Malformed => Malformed
      case Literal(text, rest) => Literal(s + text, rest)
    }
  }

  predicate IsOctal(c: char) {
    '0' <= c <= '7'
  }

  function OctalDigits(s: string, limit: nat): (n: nat)
    ensures n <= limit && n <= |s| && forall i :: 0 <= i < n ==> IsOctal(s[i])
    decreases limit
  {
    if limit == 0 || s == [] || !IsOctal(s[0]) then 0 else 1 + OctalDigits(s[1..], limit - 1)
  }

  function OctalValue(s: string): nat
    requires forall i :: 0 <= i < |s| ==> IsOctal(s[i])
  {
    if s == [] then 0
    else
      assert IsOctal(s[|s| - 1]);
      8 * OctalValue(s[..|s| - 1]) + (s[|s| - 1] as int - '0' as int)
  }

  /**
   Reads a literal string whose opening parenthesis has been consumed; `depth` counts the
   unescaped inner parentheses still open.  `rest` is what follows the closing parenthesis.
   */
  function ReadLiteral(s: string, depth: nat): (r: Literal)
    ensures r.Literal? ==> |r.rest| < |s|
    decreases |s|
  {
    if s == [] then Malformed
    else if s[0] == ')' then
      if depth == 0 then Literal([], s[1..]) else ReadLiteral(s[1..], depth - 1).Prepend(")")
    else if s[0] == '(' then ReadLiteral(s[1..], depth + 1).Prepend("(")
    else if s[0] == '\\' then ReadEscape(s[1..], depth)
    else if s[0] == '\r' then
      // an end-of-line marker counts as one line feed
      ReadLiteral(if StartsWith(s, "\r\n") then s[2..] else s[1..], depth).Prepend("\n")
    else ReadLiteral(s[1..], depth).Prepend([s[0]])
  }

  /** Continues after a reverse solidus. */
  function ReadEscape(s: string, depth: nat): (r: Literal)
    ensures r.Literal? ==> |r.rest| < |s|
    decreases |s|
  {
    if s == [] then Malformed
    else if s[0] == 'n' then ReadLiteral(s[1..], depth).Prepend("\n")
    else if s[0] == 'r' then ReadLiteral(s[1..], depth).Prepend("\r")
    else if s[0] == 't' then ReadLiteral(s[1..], depth).Prepend("\t")
    else if s[0] == 'b' then ReadLiteral(s[1..], depth).Prepend("\U{8}")
    else if s[0] == 'f' then ReadLiteral(s[1..], depth).Prepend("\U{C}")
    else if s[0] == '\n' then ReadLiteral(s[1..], depth)
    else if s[0] == '\r' then ReadLiteral(if StartsWith(s, "\r\n") then s[2..] else s[1..], depth)
    else if IsOctal(s[0]) then
      var n := OctalDigits(s, 3);
      ReadLiteral(s[n..], depth).Prepend([(OctalValue(s[..n]) % 256) as char])
    else ReadLiteral(s[1..], depth).Prepend([s[0]])  // also \( \) and \\
  }

  /** What a reader sees of a text with raw line ends: CR LF and CR become LF. */
  function NormalizeEol(s: string): string {
    if s == [] then []
    else if s[0] == '\r' then "\n" + NormalizeEol(if StartsWith(s, "\r\n") then s[2..] else s[1..])
    else [s[0]] + NormalizeEol(s[1..])
  }

  /** Reading one escaped character other than CR. */
  lemma ReadEscapedChar(c: char, after: string)
    requires c != '\r'
    ensures ReadLiteral(EscapeChar(c) + after, 0) == ReadLiteral(after, 0).Prepend([c])
  {
    var s := EscapeChar(c) + after;
    if Special(c) {
      assert s[1..] == [c] + after;
      assert s[1..][1..] == after;
      assert ReadLiteral(s, 0) == ReadEscape(s[1..], 0);
    } else {
      assert s[1..] == after;
    }
  }

  lemma ReadCarriageReturn(after: string)
    requires after != [] && after[0] != '\n'
    ensures ReadLiteral("\r" + after, 0) == ReadLiteral(after, 0).Prepend("\n")
  {
    var s := "\r" + after;
    assert s[1..] == after;
    assert !StartsWith(s, "\r\n") by {
      assert s[1] == after[0];
    }
  }

  lemma ReadCrLf(after: string)
    ensures ReadLiteral("\r\n" + after, 0) == ReadLiteral(after, 0).Prepend("\n")
  {
    var s := "\r\n" + after;
    assert s[2..] == after && s[..2] == "\r\n";
  }

  /** Escaped text, the closing parenthesis and what follows. */
  function Written(text: string, rest: string): string {
    EscapeOnePass(text) + ")" + rest
  }

  lemma WrittenStep(text: string, rest: string)
    requires text != []
    ensures Written(text, rest) == EscapeChar(text[0]) + Written(text[1..], rest)
  {
  }

  lemma RoundTripPlain(text: string, rest: string)
    requires text != [] && text[0] != '\r'
    requires ReadLiteral(Written(text[1..], rest), 0) == Literal(NormalizeEol(text[1..]), rest)
    ensures ReadLiteral(Written(text, rest), 0) == Literal(NormalizeEol(text), rest)
  {
    WrittenStep(text, rest);
    ReadEscapedChar(text[0], Written(text[1..], rest));
  }

  lemma WrittenCrLf(text: string, rest: string)
    requires |text| >= 2 && text[0] == '\r' && text[1] == '\n'
    ensures Written(text, rest) == "\r\n" + Written(text[2..], rest)
  {
    assert text[1..][1..] == text[2..];
    WrittenStep(text, rest);
    WrittenStep(text[1..], rest);
    CrThenLf(Written(text[2..], rest));
  }

  lemma CrThenLf(after: string)
    ensures EscapeChar('\r') + (EscapeChar('\n') + after) == "\r\n" + after
  {
  }

  lemma NormalizeCrLf(text: string)
    requires |text| >= 2 && text[0] == '\r' && text[1] == '\n'
    ensures NormalizeEol(text) == "\n" + NormalizeEol(text[2..])
  {
    assert text[..2] == "\r\n";
  }

  lemma RoundTripCrLf(text: string, rest: string)
    requires |text| >= 2 && text[0] == '\r' && text[1] == '\n'
    requires ReadLiteral(Written(text[2..], rest), 0) == Literal(NormalizeEol(text[2..]), rest)
    ensures ReadLiteral(Written(text, rest), 0) == Literal(NormalizeEol(text), rest)
  {
    WrittenCrLf(text, rest);
    NormalizeCrLf(text);
    ReadCrLf(Written(text[2..], rest));
  }

  lemma RoundTripCr(text: string, rest: string)
    requires text != [] && text[0] == '\r' && (|text| == 1 || text[1] != '\n')
    requires ReadLiteral(Written(text[1..], rest), 0) == Literal(NormalizeEol(text[1..]), rest)
    ensures ReadLiteral(Written(text, rest), 0) == Literal(NormalizeEol(text), rest)
  {
    WrittenStep(text, rest);
    assert !StartsWith(text, "\r\n");
    EscapeStartsWithLf(text[1..], rest);
    ReadCarriageReturn(Written(text[1..], rest));
  }

  /**
   The lexer stops exactly at the closing parenthesis the writer placed and returns the text
   with its line ends normalised, whatever follows.
   */
  lemma {:induction false} LiteralRoundTrip(text: string, rest: string)
    ensures ReadLiteral(Written(text, rest), 0) == Literal(NormalizeEol(text), rest)
    decreases |text|
  {
    if text == [] {
      assert Written(text, rest)[1..] == rest;
    } else if text[0] != '\r' {
      LiteralRoundTrip(text[1..], rest);
      RoundTripPlain(text, rest);
    } else if |text| > 1 && text[1] == '\n' {
      LiteralRoundTrip(text[2..], rest);
      RoundTripCrLf(text, rest);
    } else {
      LiteralRoundTrip(text[1..], rest);
      RoundTripCr(text, rest);
    }
  }

  lemma EscapeStartsWithLf(text: string, rest: string)
    requires text == [] || text[0] != '\n'
    ensures Written(text, rest) != [] && Written(text, rest)[0] != '\n'
  {
  }

  /** A reader gets the text back unchanged exactly when it holds no carriage return. */
  lemma {:induction false} NormalizeEolIdentity(s: string)
    ensures '\r' !in NormalizeEol(s)
    ensures NormalizeEol(s) == s <==> '\r' !in s
    decreases |s|
  {
    if s != [] {
      if s[0] == '\r' {
        NormalizeEolIdentity(if StartsWith(s, "\r\n") then s[2..] else s[1..]);
      } else {
        NormalizeEolIdentity(s[1..]);
        assert s == [s[0]] + s[1..];
        assert NormalizeEol(s)[1..] == NormalizeEol(s[1..]);
      }
    }
  }

  /** `pdf_escape` is undone by the literal-string lexer, for exactly the texts without CR. */
  lemma EscapeRoundTrip(text: string, rest: string)
    ensures ReadLiteral(Escape(text) + ")" + rest, 0) == Literal(text, rest) <==> '\r' !in text
  {
    EscapeIsOnePass(text);
    LiteralRoundTrip(text, rest);
    NormalizeEolIdentity(text);
  }

  /** A carriage return is read back as a line feed. */
  lemma CarriageReturnExample()
    ensures ReadLiteral(Escape("a\rb") + ")", 0) == Literal("a\nb", "")
  {
    EscapeIsOnePass("a\rb");
    LiteralRoundTrip("a\rb", "");
    assert EscapeOnePass("a\rb") + ")" + "" == EscapeOnePass("a\rb") + ")";
  }
}
