/** The lenient reader of graph files: what it makes of every byte string, and the recursive
    descent that computes exactly that with one shared cursor. */
module JsonReader {
  import opened Bytes
  import opened Options

  datatype Json =
    | Null
    | Bool(b: bool)
    | Num(n: real)
    | Str(s: string)
    | Arr(items: seq<Json>)
    | Obj(fields: map<string, Json>)

  datatype ReadError = UnexpectedEnd | ExpectedColon | ExpectedString | BadNumber | MissingCanvas

  datatype Result<+T> = Ok(value: T) | Err(error: ReadError)

  /** A value with the place the cursor is left at, or an error. */
  datatype Parsed<+T> = Got(value: T, next: nat) | Bad(error: ReadError)

  /** How a token of number bytes is read as a number. */
  type NumReader = seq<Byte> -> Option<real>

  const QUOTE: Byte := 0x22
  const COMMA: Byte := 0x2C
  const COLON: Byte := 0x3A
  const OPEN_BRACKET: Byte := 0x5B
  const BACKSLASH: Byte := 0x5C
  const CLOSE_BRACKET: Byte := 0x5D
  const OPEN_BRACE: Byte := 0x7B
  const CLOSE_BRACE: Byte := 0x7D
  const LETTER_E: Byte := 0x65
  const LETTER_F: Byte := 0x66
  const LETTER_N: Byte := 0x6E
  const LETTER_T: Byte := 0x74

  /** White space among the characters below 256. */
  predicate IsSpace(c: Byte) {
    9 <= c <= 13 || c == 0x20 || c == 0x85 || c == 0xA0
  }

  /** Digits, both signs, the point and the exponent letters. */
  predicate IsNumByte(c: Byte) {
    0x30 <= c <= 0x39 || c == 0x2D || c == 0x2B || c == 0x2E || c == LETTER_E || c == 0x45
  }

  /** Spelt out: the white space of RFC 8259 and that of Unicode below 256, and the characters a number
      may be written with; none of either begins anything else. */
  lemma {:induction false} CharacterClasses(c: Byte)
    ensures c in {0x09, 0x0A, 0x0D, 0x20} ==> IsSpace(c)
    ensures IsSpace(c) <==> c in {0x09, 0x0A, 0x0B, 0x0C, 0x0D, 0x20, 0x85, 0xA0}
    ensures IsNumByte(c) <==> c as char in "0123456789+-.eE"
    ensures IsSpace(c) || IsNumByte(c) ==> (c as char) !in "{}[]:,\"\\tfn" && !(IsSpace(c) && IsNumByte(c))
  {
    NumberCharacters(c);
  }

  lemma {:induction false} NumberCharacters(c: Byte)
    ensures IsNumByte(c) <==> c as char in "0123456789+-.eE"
  {
    var s := "0123456789+-.eE";
    if IsNumByte(c) {
      var k := if c == 0x2B then 10 else if c == 0x2D then 11 else if c == 0x2E then 12
               else if c == 0x65 then 13 else if c == 0x45 then 14 else c - 0x30;
      assert s[k] == c as char;
    }
  }

  // ------------------------------------------------------------ what is read

  function Left(b: seq<Byte>, i: nat): nat {
    if i < |b| then |b| - i else 0
  }

  predicate Is(b: seq<Byte>, i: nat, c: Byte) {
    i < |b| && b[i] == c
  }

  function SkipSpace(b: seq<Byte>, i: nat): (j: nat)
    ensures i <= j && (j < |b| ==> !IsSpace(b[j]))
    decreases Left(b, i)
  {
    if i < |b| && IsSpace(b[i]) then SkipSpace(b, i + 1) else i
  }

  function NumEnd(b: seq<Byte>, i: nat): (j: nat)
    requires i <= |b|
    ensures i <= j <= |b|
    decreases Left(b, i)
  {
    if i < |b| && IsNumByte(b[i]) then NumEnd(b, i + 1) else i
  }

  function Unescape(c: Byte): char {
    if c == LETTER_N then '\n' else if c == LETTER_T then '\t' else c as char
  }

  /** One character of a string, escaped or plain, and where the next one begins. */
  function StrChar(b: seq<Byte>, i: nat): (r: (char, nat))
    requires i < |b|
    ensures r.1 > i
  {
    if b[i] == BACKSLASH && i + 1 < |b| then (Unescape(b[i + 1]), i + 2) else (b[i] as char, i + 1)
  }

  /** The characters up to the closing quote or the end of input, and where that is. */
  function StrBody(b: seq<Byte>, i: nat): (r: (string, nat))
    ensures r.1 >= i
    decreases Left(b, i)
  {
    if i < |b| && b[i] != QUOTE then
      var (c, n) := StrChar(b, i);
      var (s, j) := StrBody(b, n);
      ([c] + s, j)
    else ("", i)
  }

  function ReadStr(b: seq<Byte>, i: nat): (r: Parsed<string>)
    ensures r.Got? ==> i < |b| && r.next > i
  {
    var j := SkipSpace(b, i);
    if !Is(b, j, QUOTE) then Bad(ExpectedString)
    else
      var (s, k) := StrBody(b, j + 1);
      Got(s, k + 1)
  }

  /** No empty token is a number. */
  function NumberOf(num: NumReader, token: seq<Byte>): Option<real> {
    if token == [] then None else num(token)
  }

  function ReadNum(num: NumReader, b: seq<Byte>, i: nat): (r: Parsed<Json>)
    requires i < |b|
    ensures r.Got? ==> r.next > i
  {
    var j := NumEnd(b, i);
    match NumberOf(num, b[i..j])
    case Some(x) => Got(Num(x), j)
    case None => Bad(BadNumber)
  }

  /** What the reader makes of the text at i.  Every success moves past at least one byte. */
  function ReadValue(num: NumReader, b: seq<Byte>, i: nat): (r: Parsed<Json>)
    ensures r.Got? ==> i < |b| && r.next > i
    decreases Left(b, i), 2
  {
    var j := SkipSpace(b, i);
    if j >= |b| then Bad(UnexpectedEnd)
    else if b[j] == OPEN_BRACE then ReadFields(num, b, j + 1, map[])
    else if b[j] == OPEN_BRACKET then ReadItems(num, b, j + 1, [])
    else if b[j] == QUOTE then
      match ReadStr(b, j)
      case Got(s, n) => Got(Str(s), n)
      case Bad(e) => Bad(e)
    else if b[j] == LETTER_T then Got(Bool(true), j + 4)
    else if b[j] == LETTER_F then Got(Bool(false), j + 5)
    else if b[j] == LETTER_N then Got(Null, j + 4)
    else ReadNum(num, b, j)
  }

  function PastComma(b: seq<Byte>, i: nat): (j: nat)
    ensures j >= i
  {
    var d := SkipSpace(b, i);
    if Is(b, d, COMMA) then d + 1 else d
  }

  /** The rest of an object whose fields so far are m; a repeated key replaces the earlier one. */
  function ReadFields(num: NumReader, b: seq<Byte>, i: nat, m: map<string, Json>): (r: Parsed<Json>)
    ensures r.Got? ==> i < |b| && r.next > i
    decreases Left(b, i), 1
  {
    var j := SkipSpace(b, i);
    if Is(b, j, CLOSE_BRACE) then Got(Obj(m), j + 1)
    else
      match ReadStr(b, j)
      case Bad(e) => Bad(e)
      case Got(key, k) =>
        var c := SkipSpace(b, k);
        if !Is(b, c, COLON) then Bad(ExpectedColon)
        else
          match ReadValue(num, b, c + 1)
          case Bad(e) => Bad(e)
          case Got(v, n) => ReadFields(num, b, PastComma(b, n), m[key := v])
  }

  /** The rest of an array whose items so far are a. */
  function ReadItems(num: NumReader, b: seq<Byte>, i: nat, a: seq<Json>): (r: Parsed<Json>)
    ensures r.Got? ==> i < |b| && r.next > i
    decreases Left(b, i), 3
  {
    var j := SkipSpace(b, i);
    if Is(b, j, CLOSE_BRACKET) then Got(Arr(a), j + 1)
    else
      match ReadValue(num, b, j)
      case Bad(e) => Bad(e)
      case Got(v, n) => ReadItems(num, b, PastComma(b, n), a + [v])
  }

  // ------------------------------------------------------------ the recursive descent

  /** One turn of the reading of an object: its end, a key that is wrong, or one more field. */
  lemma {:induction false} FieldStep(num: NumReader, b: seq<Byte>, i: nat, m: map<string, Json>)
    ensures var j := SkipSpace(b, i);
      var r := ReadFields(num, b, i, m);
      if Is(b, j, CLOSE_BRACE) then r == Got(Obj(m), j + 1)
      else match ReadStr(b, j)
        case Bad(e) => r == Bad(e)
        case Got(key, k) =>
          var c := SkipSpace(b, k);
          if !Is(b, c, COLON) then r == Bad(ExpectedColon)
          else match ReadValue(num, b, c + 1)
            case Bad(e) => r == Bad(e)
            case Got(v, n) => r == ReadFields(num, b, PastComma(b, n), m[key := v])
  {
  }

  /** A parse result and a cursor are what was to be read. */
  ghost predicate Agrees<T>(r: Result<T>, i: nat, p: Parsed<T>) {
    match p
    case Got(v, n) => r == Ok(v) && i == n
    case Bad(e) => r == Err(e)
  }

  class Cursor {
    const b: seq<Byte>
    const num: NumReader
    var i: nat

    constructor (b: seq<Byte>, num: NumReader)
      ensures this.b == b && this.num == num && i == 0
    {
      this.b, this.num, i := b, num, 0;
    }

    method SkipWs()
      modifies this
      ensures i == SkipSpace(b, old(i))
    {
      while i < |b| && IsSpace(b[i])
        invariant SkipSpace(b, i) == SkipSpace(b, old(i))
      {
        i := i + 1;
      }
    }

    method ParseValue() returns (r: Result<Json>)
      modifies this
      ensures Agrees(r, i, ReadValue(num, b, old(i)))
      decreases Left(b, i), 2
    {
      hide ReadFields, ReadItems, ReadNum, StrBody;
      SkipWs();
      if i >= |b| {
        return Err(UnexpectedEnd);
      }
      SkipTwice(b, old(i));
      if b[i] == OPEN_BRACE {
        r := ParseObj();
      } else if b[i] == OPEN_BRACKET {
        r := ParseArr();
      } else if b[i] == QUOTE {
        var s := ParseStr();
        r := match s case Ok(text) => Ok(Str(text)) case Err(e) => Err(e);
      } else if b[i] == LETTER_T || b[i] == LETTER_F {
        r := ParseBool();
      } else if b[i] == LETTER_N {
        i := i + 4;
        r := Ok(Null);
      } else {
        r := ParseNum();
      }
    }

    method ParseObj() returns (r: Result<Json>)
      requires i < |b|
      modifies this
      ensures Agrees(r, i, ReadFields(num, b, old(i) + 1, map[]))
      decreases Left(b, i), 1
    {
      hide ReadFields, ReadValue, ReadStr, SkipSpace, StrBody, StrChar, ReadItems, ReadNum, NumEnd;
      var m: map<string, Json> := map[];
      i := i + 1;
      while true
        invariant i > old(i)
        invariant ReadFields(num, b, i, m) == ReadFields(num, b, old(i) + 1, map[])
        decreases Left(b, i)
      {
        FieldStep(num, b, i, m);
        SkipWs();
        if i < |b| && b[i] == CLOSE_BRACE {
          i := i + 1;
          return Ok(Obj(m));
        }
        var key := ParseStr();
        if key.Err? {
          return Err(key.error);
        }
        SkipWs();
        if i >= |b| || b[i] != COLON {
          return Err(ExpectedColon);
        }
        i := i + 1;
        var val := ParseValue();
        if val.Err? {
          return Err(val.error);
        }
        m := m[key.value := val.value];
        SkipWs();
        if i < |b| && b[i] == COMMA {
          i := i + 1;
        }
      }
    }

    method ParseArr() returns (r: Result<Json>)
      requires i < |b|
      modifies this
      ensures Agrees(r, i, ReadItems(num, b, old(i) + 1, []))
      decreases Left(b, i), 1
    {
      hide ReadValue, SkipSpace;
      var a: seq<Json> := [];
      i := i + 1;
      while true
        invariant i > old(i)
        invariant ReadItems(num, b, i, a) == ReadItems(num, b, old(i) + 1, [])
        decreases Left(b, i)
      {
        SkipWs();
        if i < |b| && b[i] == CLOSE_BRACKET {
          i := i + 1;
          return Ok(Arr(a));
        }
        var item := ParseValue();
        if item.Err? {
          return Err(item.error);
        }
        a := a + [item.value];
        SkipWs();
        if i < |b| && b[i] == COMMA {
          i := i + 1;
        }
      }
    }

    method ParseStr() returns (r: Result<string>)
      modifies this
      ensures Agrees(r, i, ReadStr(b, old(i)))
    {
      SkipWs();
      if i >= |b| || b[i] != QUOTE {
        return Err(ExpectedString);
      }
      i := i + 1;
      var s: string := "";
      hide StrBody, Gathered;
      ghost var start := i;
      GatherBounds(b, start, s, i);
      while i < |b| && b[i] != QUOTE
        invariant i >= start && Gathered(b, start, s, i)
        decreases Left(b, i)
      {
        GatherStep(b, start, s, i);
        if b[i] == BACKSLASH && i + 1 < |b| {
          i := i + 1;
          s := s + [Unescape(b[i])];
        } else {
          s := s + [b[i] as char];
        }
        i := i + 1;
      }
      GatherBounds(b, start, s, i);
      i := i + 1;
      r := Ok(s);
    }

    method ParseBool() returns (r: Result<Json>)
      requires i < |b|
      modifies this
      ensures r == Ok(Bool(b[old(i)] == LETTER_T))
      ensures i == old(i) + if b[old(i)] == LETTER_T then 4 else 5
    {
      if b[i] == LETTER_T {
        i := i + 4;
        r := Ok(Bool(true));
      } else {
        i := i + 5;
        r := Ok(Bool(false));
      }
    }

    method ParseNum() returns (r: Result<Json>)
      requires i < |b|
      modifies this
      ensures Agrees(r, i, ReadNum(num, b, old(i)))
    {
      var start := i;
      while i < |b| && IsNumByte(b[i])
        invariant start <= i <= |b| && NumEnd(b, i) == NumEnd(b, start)
      {
        i := i + 1;
      }
      match NumberOf(num, b[start..i])
      case Some(x) => r := Ok(Num(x));
      case None => r := Err(BadNumber);
    }
  }

  /** The characters s have been read of the string body at start, and reading goes on at i. */
  ghost predicate Gathered(b: seq<Byte>, start: nat, s: string, i: nat) {
    s + StrBody(b, i).0 == StrBody(b, start).0 && StrBody(b, i).1 == StrBody(b, start).1
  }

  lemma {:induction false} GatherStep(b: seq<Byte>, start: nat, s: string, i: nat)
    requires Gathered(b, start, s, i) && i < |b| && b[i] != QUOTE
    ensures var (c, n) := StrChar(b, i);
      Gathered(b, start, s + [c], n)
  {
    hide StrBody, StrChar;
    StrStep(b, i, s);
  }

  lemma {:induction false} GatherBounds(b: seq<Byte>, start: nat, s: string, i: nat)
    ensures Gathered(b, start, "", start)
    ensures Gathered(b, start, s, i) && (i >= |b| || b[i] == QUOTE) ==> StrBody(b, start) == (s, i)
  {
    assert s + "" == s;
    assert "" + StrBody(b, start).0 == StrBody(b, start).0;
  }

  lemma {:induction false} StrStep(b: seq<Byte>, i: nat, s: string)
    requires i < |b| && b[i] != QUOTE
    ensures var (c, n) := StrChar(b, i);
      s + StrBody(b, i).0 == s + [c] + StrBody(b, n).0 && StrBody(b, i).1 == StrBody(b, n).1
  {
    hide StrChar;
    var (c, n) := StrChar(b, i);
    assert s + ([c] + StrBody(b, n).0) == s + [c] + StrBody(b, n).0;
  }

  lemma {:induction false} SkipTwice(b: seq<Byte>, i: nat)
    ensures SkipSpace(b, SkipSpace(b, i)) == SkipSpace(b, i)
  {
  }
}
