/** The parts of the C library the pipeline's text formats rest on: decimal printing, strtok, strchr,
    atoi, atol and strtoul (as glibc has them on a 64-bit machine), and C's integer conversions. */
module CText {

  datatype Option<+T> = None | Some(value: T)

  // ----- integer conversions -----

  /** Two's complement: x minus the multiple of 2^32 that brings it into range. */
  function Int32(x: int): int
    decreases if x < 0 then -2 * x - 1 else 2 * x + 1
  {
    if x >= 0x8000_0000 then Int32(x - 0x1_0000_0000)
    else if x < -0x8000_0000 then Int32(x + 0x1_0000_0000)
    else x
  }

  function UInt32(x: int): nat { if 0 <= x < 0x1_0000_0000 then x else x % 0x1_0000_0000 }

  function UInt16(x: int): nat { if 0 <= x < 0x1_0000 then x else x % 0x1_0000 }

  /** Unsigned conversions keep a number modulo their width and bring it into their range ... */
  lemma UnsignedWraps(x: int)
    ensures UInt32(x) < 0x1_0000_0000 && (x - UInt32(x)) % 0x1_0000_0000 == 0
    ensures UInt16(x) < 0x1_0000 && (x - UInt16(x)) % 0x1_0000 == 0
  {
  }

  /** ... and so does the signed one. */
  lemma {:induction false} SignedWraps(x: int)
    ensures -0x8000_0000 <= Int32(x) < 0x8000_0000 && (x - Int32(x)) % 0x1_0000_0000 == 0
    decreases if x < 0 then -2 * x - 1 else 2 * x + 1
  {
    if x >= 0x8000_0000 {
      SignedWraps(x - 0x1_0000_0000);
    } else if x < -0x8000_0000 {
      SignedWraps(x + 0x1_0000_0000);
    }
  }

  /** A 32-bit number, read as an int and cut to 16 bits. */
  lemma LowHalf(n: nat)
    requires n < 0x1_0000_0000
    ensures UInt16(if n < 0x8000_0000 then n else n - 0x1_0000_0000) == n % 0x1_0000
    ensures n < 0x1_0000 ==> n % 0x1_0000 == n
  {
  }

  // ----- characters and decimals -----

  predicate IsDigit(c: char) { '0' <= c <= '9' }

  predicate IsSpace(c: char) { c == ' ' || '\t' <= c <= '\r' }

  function DigitChar(d: nat): (c: char)
    requires d < 10
    ensures IsDigit(c) && c as int - '0' as int == d
  {
    ('0' as int + d) as char
  }

  /** printf's %u, %lu, and %d of a number that is not negative. */
  function Dec(n: nat): string {
    if n < 10 then [DigitChar(n)] else Dec(n / 10) + [DigitChar(n % 10)]
  }

  function Zeros(n: nat): string { seq(n, _ => '0') }

  /** printf's %06d. */
  function SixDigits(x: int): string {
    if x >= 0 then Zeros(if |Dec(x)| < 6 then 6 - |Dec(x)| else 0) + Dec(x)
    else "-" + Zeros(if |Dec(-x)| < 5 then 5 - |Dec(-x)| else 0) + Dec(-x)
  }

  /** The number that the leading digits of s continue. */
  function DigitsValue(s: string, acc: nat): nat {
    if s == "" || !IsDigit(s[0]) then acc
    else DigitsValue(s[1..], 10 * acc + (s[0] as int - '0' as int))
  }

  function SkipSpace(s: string): string {
    if s != "" && IsSpace(s[0]) then SkipSpace(s[1..]) else s
  }

  /** The integer strtol sees, before any range is applied. */
  function SignedValue(s: string): int {
    var t := SkipSpace(s);
    if t != "" && t[0] == '-' then -(DigitsValue(t[1..], 0) as int)
    else if t != "" && t[0] == '+' then DigitsValue(t[1..], 0)
    else DigitsValue(t, 0)
  }

  function Clamp(x: int, lo: int, hi: int): int
    requires lo <= hi
  {
    if x < lo then lo else if x > hi then hi else x
  }

  function Atol(s: string): int { Clamp(SignedValue(s), -0x8000_0000_0000_0000, 0x7FFF_FFFF_FFFF_FFFF) }

  function Atoi(s: string): int { Int32(Atol(s)) }

  function StrToUL(s: string): nat {
    var v := SignedValue(s);
    if v > 0xFFFF_FFFF_FFFF_FFFF || v < -0xFFFF_FFFF_FFFF_FFFF then 0xFFFF_FFFF_FFFF_FFFF
    else v % 0x1_0000_0000_0000_0000
  }

  lemma {:induction false} DecDigits(n: nat)
    ensures |Dec(n)| >= 1 && forall k :: 0 <= k < |Dec(n)| ==> IsDigit(Dec(n)[k])
  {
    if n >= 10 { DecDigits(n / 10); }
  }

  /** Reading back a printed decimal, whatever its length. */
  lemma {:induction false} DigitsValueDec(n: nat, rest: string)
    ensures DigitsValue(Dec(n) + rest, 0) == DigitsValue(rest, n)
  {
    if n < 10 {
      assert (Dec(n) + rest)[1..] == rest;
    } else {
      var d := [DigitChar(n % 10)];
      DigitsValueDec(n / 10, d + rest);
      assert Dec(n) + rest == Dec(n / 10) + (d + rest);
      assert (d + rest)[1..] == rest;
    }
  }

  predicate StopsNumber(rest: string) { rest == "" || !IsDigit(rest[0]) }

  lemma SignedValueDec(n: nat, rest: string)
    requires StopsNumber(rest)
    ensures SignedValue(Dec(n) + rest) == n
  {
    DecDigits(n);
    assert SkipSpace(Dec(n) + rest) == Dec(n) + rest;
    DigitsValueDec(n, rest);
  }

  lemma Int32Of(x: nat)
    requires x < 0x1_0000_0000
    ensures Int32(x) == if x < 0x8000_0000 then x else x - 0x1_0000_0000
  {
  }

  lemma AtolDec(n: nat, rest: string)
    requires StopsNumber(rest) && n < 0x8000_0000_0000_0000
    ensures Atol(Dec(n) + rest) == n
  {
    SignedValueDec(n, rest);
  }

  /** atoi of a printed 32-bit number is that number as an int: from 2^31 on it is negative. */
  lemma AtoiDec(n: nat, rest: string)
    requires StopsNumber(rest) && n < 0x1_0000_0000
    ensures Atoi(Dec(n) + rest) == if n < 0x8000_0000 then n else n - 0x1_0000_0000
  {
    AtolDec(n, rest);
    Int32Of(n);
  }

  lemma StrToULDec(n: nat, rest: string)
    requires StopsNumber(rest) && n <= 0xFFFF_FFFF_FFFF_FFFF
    ensures StrToUL(Dec(n) + rest) == n
  {
    SignedValueDec(n, rest);
  }

  lemma {:induction false} DecLength(n: nat)
    ensures |Dec(n)| <= 1 <==> n < 10
    ensures |Dec(n)| <= 2 <==> n < 100
    ensures |Dec(n)| <= 3 <==> n < 1000
  {
    DecDigits(n);
    if n >= 10 {
      DecDigits(n / 10);
      if n >= 100 { DecLength(n / 10); }
    }
  }

  function Power10(k: nat): nat { if k == 0 then 1 else 10 * Power10(k - 1) }

  lemma {:induction false} DecIsShort(n: nat, k: nat)
    requires k >= 1 && n < Power10(k)
    ensures |Dec(n)| <= k
  {
    if n >= 10 { DecIsShort(n / 10, k - 1); }
  }

  predicate AllSpaces(s: string) { forall k :: 0 <= k < |s| ==> s[k] == ' ' || 9 <= s[k] as int <= 13 }

  lemma {:induction false} SpacesAreSkipped(s: string, rest: string)
    requires AllSpaces(s) && rest != "" && rest[0] != ' ' && !(9 <= rest[0] as int <= 13)
    ensures SkipSpace(s + rest) == rest
  {
    if s == "" {
      assert s + rest == rest;
    } else {
      assert (s + rest)[1..] == s[1..] + rest;
      SpacesAreSkipped(s[1..], rest);
    }
  }

  lemma SignedIsRead(space: string, sign: string, n: nat, rest: string)
    requires AllSpaces(space) && (sign == "" || sign == "+" || sign == "-") && StopsNumber(rest)
    ensures SignedValue(space + (sign + (Dec(n) + rest))) == if sign == "-" then -(n as int) else n
  {
    var t := Dec(n) + rest;
    DecDigits(n);
    DigitsValueDec(n, rest);
    SpacesAreSkipped(space, sign + t);
    if sign == "" { assert sign + t == t; } else { assert (sign + t)[1..] == t; }
  }

  /** White space, a sign and digits are read as a signed number, which each function brings into its range by
      saturation (and strtoul negates modulo 2^64). */
  lemma NumberIsRead(space: string, sign: string, n: nat, rest: string)
    requires AllSpaces(space) && (sign == "" || sign == "+" || sign == "-") && StopsNumber(rest)
    ensures var s, x := space + (sign + (Dec(n) + rest)), if sign == "-" then -(n as int) else n;
            && Atol(s) == (if x < -0x8000_0000_0000_0000 then -0x8000_0000_0000_0000
                           else if x > 0x7FFF_FFFF_FFFF_FFFF then 0x7FFF_FFFF_FFFF_FFFF else x)
            && StrToUL(s) == (if n > 0xFFFF_FFFF_FFFF_FFFF then 0xFFFF_FFFF_FFFF_FFFF
                              else if sign == "-" && n > 0 then 0x1_0000_0000_0000_0000 - n else n)
  {
    SignedIsRead(space, sign, n, rest);
  }

  /** A text that starts with anything else is read as zero. */
  lemma NothingIsRead(s: string)
    requires s != "" ==> s[0] != ' ' && !(9 <= s[0] as int <= 13) && !IsDigit(s[0]) && s[0] != '-' && s[0] != '+'
    ensures Atoi(s) == 0 && Atol(s) == 0 && StrToUL(s) == 0
  {
  }

  lemma {:induction false} ZerosAreRead(k: nat, rest: string)
    ensures DigitsValue(Zeros(k) + rest, 0) == DigitsValue(rest, 0)
  {
    if k == 0 {
      assert Zeros(k) + rest == rest;
    } else {
      assert (Zeros(k) + rest)[1..] == Zeros(k - 1) + rest;
      ZerosAreRead(k - 1, rest);
    }
  }

  /** Microseconds are printed with all six digits. */
  lemma SixDigitsAreRead(x: nat)
    requires x < 1_000_000
    ensures |SixDigits(x)| == 6 && (forall k :: 0 <= k < 6 ==> IsDigit(SixDigits(x)[k]))
    ensures DigitsValue(SixDigits(x), 0) == x
  {
    assert Power10(6) == 1_000_000;
    DecIsShort(x, 6);
    DecDigits(x);
    ZerosAreRead(6 - |Dec(x)|, Dec(x));
    DigitsValueDec(x, "");
    assert Dec(x) + "" == Dec(x);
    if |Dec(x)| == 6 { assert Zeros(0) + Dec(x) == Dec(x); }
  }

  // ----- cutting strings -----

  /** The position of the first c in s, or |s|. */
  function Find(s: string, c: char): (k: nat)
    ensures k <= |s|
  {
    if s == "" || s[0] == c then 0 else 1 + Find(s[1..], c)
  }

  lemma {:induction false} FindIsFirst(s: string, c: char)
    ensures forall j :: 0 <= j < Find(s, c) ==> s[j] != c
    ensures Find(s, c) < |s| ==> s[Find(s, c)] == c
  {
    if s != "" && s[0] != c {
      FindIsFirst(s[1..], c);
    }
  }

  /** A string cut at the first c, as addconn and others do with strchr. */
  function CutAt(s: string, c: char): string { s[..Find(s, c)] }

  function SkipChar(s: string, c: char): string {
    if s != "" && s[0] == c then SkipChar(s[1..], c) else s
  }

  /** One call of strtok with a one-character delimiter set: the token and what later calls see. */
  function StrTok(s: string, delim: char): Option<(string, string)> {
    var t := SkipChar(s, delim);
    var k := Find(t, delim);
    if t == "" then None else Some((t[..k], if k < |t| then t[k + 1..] else ""))
  }

  lemma FindConcat(s: string, c: char, rest: string)
    requires c !in s
    ensures Find(s + [c] + rest, c) == |s|
  {
    var t := s + [c] + rest;
    assert t[|s|] == c;
    assert forall j :: 0 <= j < |s| ==> t[j] == s[j];
    FindIsFirst(t, c);
  }

  lemma StrTokToken(tok: string, delim: char, rest: string)
    requires tok != "" && delim !in tok
    ensures StrTok(tok + [delim] + rest, delim) == Some((tok, rest))
  {
    var s := tok + [delim] + rest;
    assert s[0] == tok[0];
    assert SkipChar(s, delim) == s;
    FindConcat(tok, delim, rest);
    assert s[..|tok|] == tok && s[|tok| + 1..] == rest;
  }

  predicate Only(s: string, c: char) { forall k :: 0 <= k < |s| ==> s[k] == c }

  lemma {:induction false} DelimitersAreSkipped(delims: string, delim: char, rest: string)
    requires Only(delims, delim) && (rest == "" || rest[0] != delim)
    ensures SkipChar(delims + rest, delim) == rest
  {
    if delims == "" {
      assert delims + rest == rest;
    } else {
      assert (delims + rest)[1..] == delims[1..] + rest;
      DelimitersAreSkipped(delims[1..], delim, rest);
    }
  }

  /** strtok skips delimiters, however many, and finds a token that ends at the next one or at the end. */
  lemma StrTokFinds(delims: string, tok: string, delim: char, rest: string)
    requires Only(delims, delim) && tok != "" && delim !in tok
    ensures StrTok(delims + (tok + [delim] + rest), delim) == Some((tok, rest))
    ensures StrTok(delims + tok, delim) == Some((tok, "")) && StrTok(delims, delim) == None
  {
    StrTokToken(tok, delim, rest);
    var s := tok + [delim] + rest;
    assert s[0] == tok[0];
    DelimitersAreSkipped("", delim, s);
    assert "" + s == s;
    DelimitersAreSkipped(delims, delim, s);
    DelimitersAreSkipped(delims, delim, tok);
    FindIsFirst(tok, delim);
    assert Find(tok, delim) == |tok| && tok[..|tok|] == tok;
    DelimitersAreSkipped(delims, delim, "");
    assert delims + "" == delims;
  }

  // ----- reading lines -----

  /** The size of the buffer in which both collectors read their configuration files. */
  const LINELEN: nat := 32

  /** What one call of fgets takes from the text: a line with its newline, but never more than the buffer has
      room for. */
  function PieceLength(text: string): (n: nat)
    requires text != ""
    ensures 1 <= n <= |text| && n < LINELEN
  {
    var k := Find(text, '\n');
    var n := if k < |text| then k + 1 else k;
    if n < LINELEN then n else LINELEN - 1
  }

  /** The strings that calling fgets until the end of a text returns. */
  function Pieces(text: string): seq<string>
    decreases |text|
  {
    if text == "" then [] else [text[..PieceLength(text)]] + Pieces(text[PieceLength(text)..])
  }

  /** Of the pieces of a text some are read and the others are those of the rest. */
  ghost predicate ReadSoFar(text: string, done: seq<string>, rest: string) { Pieces(text) == done + Pieces(rest) }

  lemma PieceIsRead(text: string, done: seq<string>, rest: string)
    requires rest != "" && ReadSoFar(text, done, rest)
    ensures ReadSoFar(text, done + [rest[..PieceLength(rest)]], rest[PieceLength(rest)..])
  {
    assert done + Pieces(rest) == done + [rest[..PieceLength(rest)]] + Pieces(rest[PieceLength(rest)..]);
  }

  lemma AllIsRead(text: string, done: seq<string>)
    requires ReadSoFar(text, done, "")
    ensures Pieces(text) == done
  {
  }

  predicate OneLine(line: string) { '\n' !in line }

  /** The first piece of a line, without a newline. */
  function Start(line: string): string { if |line| < LINELEN then line else line[..LINELEN - 1] }

  /** What a line becomes: pieces as long as the buffer has room for, and a last one with the newline. */
  function CutLine(line: string): seq<string>
    decreases |line|
  {
    if |line| < LINELEN - 1 then [line + "\n"] else [Start(line)] + CutLine(line[LINELEN - 1..])
  }

  /** The pieces after the first one. */
  function Overflow(line: string): seq<string> {
    if |line| < LINELEN - 1 then [] else CutLine(line[LINELEN - 1..])
  }

  lemma PieceOfLine(line: string, rest: string)
    requires OneLine(line)
    ensures PieceLength(line + "\n" + rest) == if |line| < LINELEN - 1 then |line| + 1 else LINELEN - 1
  {
    FindConcat(line, '\n', rest);
    assert line + ['\n'] + rest == line + "\n" + rest;
  }

  lemma NextPiece(piece: string, rest: string)
    requires piece != "" && PieceLength(piece + rest) == |piece|
    ensures Pieces(piece + rest) == [piece] + Pieces(rest)
  {
    var text := piece + rest;
    assert text[..|piece|] == piece && text[|piece|..] == rest;
  }

  lemma ShortPiece(line: string, rest: string)
    requires OneLine(line) && |line| < LINELEN - 1
    ensures Pieces(line + "\n" + rest) == [line + "\n"] + Pieces(rest)
  {
    PieceOfLine(line, rest);
    NextPiece(line + "\n", rest);
  }

  lemma LongPiece(line: string, rest: string)
    requires OneLine(line) && |line| >= LINELEN - 1
    ensures Pieces(line + "\n" + rest) == [Start(line)] + Pieces(line[LINELEN - 1..] + "\n" + rest)
  {
    PieceOfLine(line, rest);
    var more := line[LINELEN - 1..] + "\n" + rest;
    assert line + "\n" + rest == Start(line) + more;
    NextPiece(Start(line), more);
  }

  /** However long a line is, it is read as its pieces, and then the rest of the text is read. */
  lemma {:induction false} LineIsCut(line: string, rest: string)
    requires OneLine(line)
    ensures Pieces(line + "\n" + rest) == CutLine(line) + Pieces(rest)
    decreases |line|
  {
    if |line| < LINELEN - 1 {
      ShortPiece(line, rest);
    } else {
      LongPiece(line, rest);
      LineIsCut(line[LINELEN - 1..], rest);
    }
  }

  function Joined(pieces: seq<string>): string { if pieces == [] then "" else pieces[0] + Joined(pieces[1..]) }

  /** A result of fgets: not empty, at most 31 characters, with a newline only at its end, and without one only if
      it is full or the last. */
  predicate IsPiece(p: string, last: bool) {
    1 <= |p| <= 31 && '\n' !in p[..|p| - 1] && (last || p[|p| - 1] == '\n' || |p| == 31)
  }

  lemma FirstIsPiece(text: string)
    requires text != ""
    ensures IsPiece(text[..PieceLength(text)], PieceLength(text) == |text|)
  {
    FindIsFirst(text, '\n');
  }

  lemma ConsPiece(piece: string, pieces: seq<string>)
    requires IsPiece(piece, pieces == []) && forall k :: 0 <= k < |pieces| ==> IsPiece(pieces[k], k == |pieces| - 1)
    ensures var all := [piece] + pieces; forall k :: 0 <= k < |all| ==> IsPiece(all[k], k == |all| - 1)
    ensures Joined([piece] + pieces) == piece + Joined(pieces)
  {
    assert ([piece] + pieces)[1..] == pieces;
  }

  /** What fgets promises of a buffer of 32 bytes: the pieces make up the text, and each is a result of fgets. */
  lemma {:induction false} PiecesAreTheText(text: string)
    ensures Joined(Pieces(text)) == text
    ensures forall k :: 0 <= k < |Pieces(text)| ==> IsPiece(Pieces(text)[k], k == |Pieces(text)| - 1)
    decreases |text|
  {
    if text != "" {
      var piece, rest := text[..PieceLength(text)], text[PieceLength(text)..];
      FirstIsPiece(text);
      PiecesAreTheText(rest);
      ConsPiece(piece, Pieces(rest));
      assert text == piece + rest;
    }
  }
}
