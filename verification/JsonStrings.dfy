/** JSON strings (RFC 8259, section 7): how they are written, what they mean, and what the reader
    hears.  The two agree exactly on ASCII characters and five of the escapes. */
module JsonStrings {
  import opened Bytes
  import opened JsonReader

  const SLASH: Byte := 0x2F
  const LETTER_B: Byte := 0x62
  const LETTER_R: Byte := 0x72
  const LETTER_U: Byte := 0x75

  /** A character as it is, a backslash and one more byte, or \u and four hexadecimal digits. */
  datatype Piece = Plain(c: char) | Escape(e: Byte) | Unicode(digits: seq<Byte>)

  predicate IsHex(d: Byte) {
    0x30 <= d <= 0x39 || 0x41 <= d <= 0x46 || 0x61 <= d <= 0x66
  }

  function HexValue(d: Byte): nat
    requires IsHex(d)
  {
    if d <= 0x39 then d - 0x30 else if d <= 0x46 then d - 0x41 + 10 else d - 0x61 + 10
  }

  /** The pieces of the grammar; control characters may also stand as they are. */
  predicate IsPiece(p: Piece) {
    match p
    case Plain(c) => c != '"' && c != '\\'
    case Escape(e) => e in {QUOTE, BACKSLASH, SLASH, LETTER_B, LETTER_F, LETTER_N, LETTER_R, LETTER_T}
    case Unicode(digits) => |digits| == 4 && forall i :: 0 <= i < 4 ==> IsHex(digits[i])
  }

  predicate ArePieces(ps: seq<Piece>) {
    forall i :: 0 <= i < |ps| ==> IsPiece(ps[i])
  }

  // ------------------------------------------------------------ the text of a string

  /** The UTF-8 form of a character (RFC 3629, section 3). */
  function Utf8(c: char): (s: seq<Byte>)
    ensures s != []
  {
    var n := c as int;
    if n < 0x80 then [n]
    else if n < 0x800 then [0xC0 + n / 0x40, 0x80 + n % 0x40]
    else if n < 0x10000 then [0xE0 + n / 0x1000, 0x80 + n / 0x40 % 0x40, 0x80 + n % 0x40]
    else [0xF0 + n / 0x40000, 0x80 + n / 0x1000 % 0x40, 0x80 + n / 0x40 % 0x40, 0x80 + n % 0x40]
  }

  function PieceText(p: Piece): seq<Byte> {
    match p
    case Plain(c) => Utf8(c)
    case Escape(e) => [BACKSLASH, e]
    case Unicode(digits) => [BACKSLASH, LETTER_U] + digits
  }

  function PiecesText(ps: seq<Piece>): seq<Byte> {
    if ps == [] then [] else PieceText(ps[0]) + PiecesText(ps[1..])
  }

  function StrText(ps: seq<Piece>): seq<Byte> {
    [QUOTE] + PiecesText(ps) + [QUOTE]
  }

  // ------------------------------------------------------------ what a string means

  function Meant(e: Byte): char {
    if e == LETTER_B then '\U{8}'
    else if e == LETTER_F then '\U{C}'
    else if e == LETTER_N then '\n'
    else if e == LETTER_R then '\r'
    else if e == LETTER_T then '\t'
    else e as char
  }

  function CodeUnit(digits: seq<Byte>): nat
    requires IsPiece(Unicode(digits))
  {
    0x1000 * HexValue(digits[0]) + 0x100 * HexValue(digits[1]) + 0x10 * HexValue(digits[2]) + HexValue(digits[3])
  }

  /** Two pieces that together escape one character beyond the basic plane. */
  predicate IsPair(p: Piece, q: Piece)
    requires IsPiece(p) && IsPiece(q)
  {
    && p.Unicode? && 0xD800 <= CodeUnit(p.digits) < 0xDC00
    && q.Unicode? && 0xDC00 <= CodeUnit(q.digits) < 0xE000
  }

  function PieceMeaning(p: Piece): char
    requires IsPiece(p)
  {
    match p
    case Plain(c) => c
    case Escape(e) => Meant(e)
    case Unicode(digits) =>
      var n := CodeUnit(digits);
      if n < 0xD800 || 0xE000 <= n < 0x10000 then n as char else '\U{FFFD}'
  }

  /** The string that pieces stand for; half of a pair alone stands for the replacement character. */
  function Meaning(ps: seq<Piece>): string
    requires ArePieces(ps)
  {
    if ps == [] then ""
    else if |ps| > 1 && IsPair(ps[0], ps[1]) then
      var n := 0x10000 + 0x400 * (CodeUnit(ps[0].digits) - 0xD800) + (CodeUnit(ps[1].digits) - 0xDC00);
      [n as char] + Meaning(ps[2..])
    else [PieceMeaning(ps[0])] + Meaning(ps[1..])
  }

  // ------------------------------------------------------------ what the reader hears

  /** Each byte taken for a character of its own. */
  function Latin1(bytes: seq<Byte>): (s: string)
    ensures |s| == |bytes|
    ensures forall i :: 0 <= i < |s| ==> s[i] == bytes[i] as char
  {
    if bytes == [] then "" else [bytes[0] as char] + Latin1(bytes[1..])
  }

  function HeardPiece(p: Piece): string {
    match p
    case Plain(c) => if c < 128 as char then [c] else Latin1(Utf8(c))
    case Escape(e) => [Unescape(e)]
    case Unicode(digits) => ['u'] + Latin1(digits)
  }

  function Heard(ps: seq<Piece>): string {
    if ps == [] then "" else HeardPiece(ps[0]) + Heard(ps[1..])
  }

  /** The escapes the reader undoes as they are meant: quote, backslash, slash, newline and tab. */
  lemma {:induction false} EscapeIff(e: Byte)
    requires IsPiece(Escape(e))
    ensures Unescape(e) == Meant(e) <==> e in {QUOTE, BACKSLASH, SLASH, LETTER_N, LETTER_T}
  {
  }

  /** The pieces the reader hears as they are meant. */
  predicate Kept(p: Piece) {
    match p
    case Plain(c) => c < 128 as char
    case Escape(e) => e in {QUOTE, BACKSLASH, SLASH, LETTER_N, LETTER_T}
    case Unicode(_) => false
  }

  lemma {:induction false} PieceIff(p: Piece)
    requires IsPiece(p)
    ensures |HeardPiece(p)| >= 1 && (p.Unicode? ==> |HeardPiece(p)| == 5)
    ensures HeardPiece(p) == [PieceMeaning(p)] <==> Kept(p)
    ensures |HeardPiece(p)| == 1 && !Kept(p) ==> HeardPiece(p)[0] != PieceMeaning(p)
  {
    if p.Escape? { EscapeIff(p.e); }
  }

  lemma {:induction false} MeaningIsShort(ps: seq<Piece>)
    requires ArePieces(ps)
    ensures |Meaning(ps)| <= |ps| <= |Heard(ps)|
  {
    hide HeardPiece, PieceMeaning, IsPair, CodeUnit;
    if ps != [] {
      PieceIff(ps[0]);
      MeaningIsShort(ps[1..]);
      if |ps| > 1 { MeaningIsShort(ps[2..]); }
    }
  }

  /** A string is heard as it is meant if and only if it is made of ASCII characters and the five
      escapes. */
  lemma {:induction false} HeardIff(ps: seq<Piece>)
    requires ArePieces(ps)
    ensures Heard(ps) == Meaning(ps) <==> forall i :: 0 <= i < |ps| ==> Kept(ps[i])
  {
    hide PieceMeaning, CodeUnit, HeardPiece, IsPiece, Kept;
    if ps != [] {
      var p, rest := ps[0], ps[1..];
      PieceIff(p);
      MeaningIsShort(rest);
      HeardIff(rest);
      UnicodeIsLost(p);
      if p.Unicode? {
        if |ps| > 1 { MeaningIsShort(ps[2..]); }
        assert |Heard(ps)| > |ps| >= |Meaning(ps)|;
      } else {
        HeadsDiffer(HeardPiece(p), PieceMeaning(p), Heard(rest), Meaning(rest));
        assert Meaning(ps) == [PieceMeaning(p)] + Meaning(rest);
        assert forall i :: 0 <= i < |rest| ==> rest[i] == ps[i + 1];
      }
    }
  }

  lemma {:induction false} UnicodeIsLost(p: Piece)
    ensures p.Unicode? ==> !Kept(p)
  {
  }

  lemma {:induction false} HeadsDiffer(s: string, c: char, t: string, u: string)
    requires |s| >= 1 && |u| <= |t|
    ensures s + t == [c] + u <==> s == [c] && t == u
  {
    if s + t == [c] + u {
      assert |s| == 1 && (s + t)[0] == s[0];
      assert t == (s + t)[1..] == u;
    }
  }

  // ------------------------------------------------------------ quoting a string

  predicate IsAscii(s: string) {
    forall i :: 0 <= i < |s| ==> s[i] < 128 as char
  }

  function QuotedChar(c: char): Piece {
    if c == '"' then Escape(QUOTE)
    else if c == '\\' then Escape(BACKSLASH)
    else if c == '\n' then Escape(LETTER_N)
    else if c == '\t' then Escape(LETTER_T)
    else Plain(c)
  }

  /** A string with its quotes, backslashes, newlines and tabs escaped. */
  function Quoted(s: string): seq<Piece> {
    if s == "" then [] else [QuotedChar(s[0])] + Quoted(s[1..])
  }

  lemma {:induction false} QuotedMeans(s: string)
    ensures |Quoted(s)| == |s| && forall i :: 0 <= i < |s| ==> Quoted(s)[i] == QuotedChar(s[i])
    ensures ArePieces(Quoted(s)) && Meaning(Quoted(s)) == s
  {
    if s != "" {
      QuotedMeans(s[1..]);
      assert s == [s[0]] + s[1..];
      assert Quoted(s)[1..] == Quoted(s[1..]);
    }
  }

  /** What the reader hears of a quoted string. */
  function HeardText(s: string): string {
    Heard(Quoted(s))
  }

  lemma {:induction false} AsciiParts(s: string, t: string)
    ensures IsAscii(s + t) <==> IsAscii(s) && IsAscii(t)
  {
    if IsAscii(s + t) {
      assert forall i :: 0 <= i < |s| ==> s[i] == (s + t)[i];
      assert forall i :: 0 <= i < |t| ==> t[i] == (s + t)[|s| + i];
    }
  }

  lemma {:induction false} HeardTextCons(s: string)
    requires s != ""
    ensures HeardText(s) == HeardPiece(QuotedChar(s[0])) + HeardText(s[1..])
  {
    hide HeardPiece, QuotedChar;
    assert Quoted(s)[1..] == Quoted(s[1..]);
  }

  /** What a heard text h says of the string s that was quoted. */
  predicate Faithful(h: string, s: string) {
    && (h == s <==> IsAscii(s))
    && |h| >= |s|
    && (!IsAscii(s) ==> |h| > |s| && !IsAscii(h))
  }

  lemma {:induction false} FaithfulCons(first: string, c: char, rest: string, s: string)
    requires Faithful(first, [c]) && Faithful(rest, s)
    ensures Faithful(first + rest, [c] + s)
  {
    hide IsAscii;
    HeadsDiffer(first, c, rest, s);
    AsciiParts(first, rest);
    AsciiParts([c], s);
  }

  /** A quoted string comes through unchanged exactly when it is ASCII, and longer otherwise. */
  lemma {:induction false} HeardTextIff(s: string)
    ensures Faithful(HeardText(s), s)
  {
    if s != "" {
      hide *;
      HeardTextIff(s[1..]);
      HeardTextCons(s);
      QuotedCharHeard(s[0]);
      FaithfulCons(HeardPiece(QuotedChar(s[0])), s[0], HeardText(s[1..]), s[1..]);
      assert s == [s[0]] + s[1..];
    }
  }

  lemma {:induction false} AsciiOne(c: char)
    ensures IsAscii([c]) <==> c < 128 as char
  {
    if IsAscii([c]) { assert [c][0] < 128 as char; }
  }

  lemma {:induction false} QuotedCharHeard(c: char)
    ensures Faithful(HeardPiece(QuotedChar(c)), [c])
  {
    AsciiOne(c);
    if c >= 128 as char {
      var h := HeardPiece(QuotedChar(c));
      assert Utf8(c)[0] >= 0xC0 && |Utf8(c)| >= 2;
      assert h[0] == Utf8(c)[0] as char;
    }
  }
}
