/** JSON texts, and the proof that the reader gets back each text's value.  The texts take in the
    whole grammar of RFC 8259; they may also hold raw control characters in strings, between tokens
    whatever the reader takes for white space, white space for a comma, and a comma too many behind
    the last value. */
module JsonText {
  import opened Bytes
  import opened JsonReader
  import opened JsonStrings
  import opened Sequences

  // ------------------------------------------------------------ documents

  type Space = seq<Byte>

  datatype Doc =
    | DNull
    | DBool(b: bool)
    | DNum(token: seq<Byte>)
    | DStr(pieces: seq<Piece>)
    | DArr(inner: Space, elems: Elems)
    | DObj(inner: Space, members: Members)

  /** What stands between two values, or behind the last: perhaps a comma, with white space. */
  datatype Gap = Comma(space: Space) | NoComma

  /** The elements of an array; `after` stands before the gap or the bracket. */
  datatype Elems = NoElems | Elem(value: Doc, after: Space, next: Gap, rest: Elems)

  datatype Members =
    | NoMembers
    | Member(key: seq<Piece>, before: Space, colon: Space, value: Doc, after: Space, next: Gap, rest: Members)

  function Text(d: Doc): seq<Byte> {
    match d
    case DNull => [LETTER_N, 0x75, 0x6C, 0x6C]
    case DBool(true) => [LETTER_T, 0x72, 0x75, LETTER_E]
    case DBool(false) => [LETTER_F, 0x61, 0x6C, 0x73, LETTER_E]
    case DNum(token) => token
    case DStr(ps) => StrText(ps)
    case DArr(inner, elems) => [OPEN_BRACKET] + inner + ElemsText(elems) + [CLOSE_BRACKET]
    case DObj(inner, members) => [OPEN_BRACE] + inner + MembersText(members) + [CLOSE_BRACE]
  }

  function Separator(next: Gap): seq<Byte> {
    if next.Comma? then [COMMA] + next.space else []
  }

  /** Only white space around a comma; where the comma is missing, white space keeps the values apart. */
  predicate Apart(after: Space, next: Gap, more: bool) {
    && AllSpace(after)
    && (next.Comma? ==> AllSpace(next.space))
    && (next.NoComma? && more ==> after != [])
  }

  function ElemsText(es: Elems): seq<Byte> {
    match es
    case NoElems => []
    case Elem(value, after, next, rest) =>
      Text(value) + after + Separator(next) + ElemsText(rest)
  }

  function MembersText(ms: Members): seq<Byte> {
    match ms
    case NoMembers => []
    case Member(key, before, colon, value, after, next, rest) =>
      StrText(key) + before + [COLON] + colon + Text(value) + after
      + Separator(next) + MembersText(rest)
  }

  /** What a document stands for; of repeated keys the last counts. */
  function Value(num: NumReader, d: Doc): Json
    requires Readable(num, d)
  {
    match d
    case DNull => Null
    case DBool(b) => Bool(b)
    case DNum(token) => Num(num(token).value)
    case DStr(ps) => Str(Heard(ps))
    case DArr(_, elems) => Arr(ElemValues(num, elems))
    case DObj(_, members) => Obj(MemberValues(num, members))
  }

  function ElemValues(num: NumReader, es: Elems): seq<Json>
    requires ElemsReadable(num, es)
  {
    match es
    case NoElems => []
    case Elem(value, _, _, rest) => [Value(num, value)] + ElemValues(num, rest)
  }

  function MemberValues(num: NumReader, ms: Members): map<string, Json>
    requires MembersReadable(num, ms)
  {
    match ms
    case NoMembers => map[]
    case Member(key, _, _, value, _, _, rest) => map[Heard(key) := Value(num, value)] + MemberValues(num, rest)
  }

  predicate AllSpace(w: Space) {
    forall i :: 0 <= i < |w| ==> IsSpace(w[i])
  }

  predicate IsToken(num: NumReader, token: seq<Byte>) {
    token != [] && (forall i :: 0 <= i < |token| ==> IsNumByte(token[i])) && num(token).Some?
  }

  /** Only white space between tokens, and every number token is a number. */
  predicate Readable(num: NumReader, d: Doc) {
    match d
    case DNum(token) => IsToken(num, token)
    case DStr(ps) => ArePieces(ps)
    case DArr(inner, elems) => AllSpace(inner) && ElemsReadable(num, elems)
    case DObj(inner, members) => AllSpace(inner) && MembersReadable(num, members)
    case _ => true
  }

  predicate ElemsReadable(num: NumReader, es: Elems) {
    match es
    case NoElems => true
    case Elem(value, after, next, rest) =>
      Apart(after, next, rest.Elem?) && Readable(num, value) && ElemsReadable(num, rest)
  }

  predicate MembersReadable(num: NumReader, ms: Members) {
    match ms
    case NoMembers => true
    case Member(key, before, colon, value, after, next, rest) =>
      && ArePieces(key) && AllSpace(before) && AllSpace(colon) && Apart(after, next, rest.Member?)
      && Readable(num, value) && MembersReadable(num, rest)
  }

  // ------------------------------------------------------------ places in a text

  /** The bytes t stand at i. */
  ghost predicate At(b: seq<Byte>, i: nat, t: seq<Byte>) {
    i + |t| <= |b| && b[i..i + |t|] == t
  }

  lemma {:induction false} AtSplit(b: seq<Byte>, i: nat, s: seq<Byte>, t: seq<Byte>)
    requires At(b, i, s + t)
    ensures At(b, i, s) && At(b, i + |s|, t)
  {
    assert b[i..i + |s + t|][..|s|] == s;
    assert b[i..i + |s + t|][|s|..] == t;
  }

  lemma {:induction false} AtByte(b: seq<Byte>, i: nat, c: Byte)
    requires At(b, i, [c])
    ensures i < |b| && b[i] == c
  {
    assert b[i..i + 1][0] == c;
  }

  lemma {:induction false} AtIndex(b: seq<Byte>, i: nat, t: seq<Byte>, k: nat)
    requires At(b, i, t) && k < |t|
    ensures i + k < |b| && b[i + k] == t[k]
  {
    assert b[i..i + |t|][k] == t[k];
  }

  // ------------------------------------------------------------ reading strings

  /** Bytes that neither quote nor escape are read one by one. */
  lemma {:induction false} PlainBytes(b: seq<Byte>, i: nat, t: seq<Byte>)
    requires At(b, i, t) && forall k :: 0 <= k < |t| ==> t[k] != QUOTE && t[k] != BACKSLASH
    ensures StrBody(b, i) == (Latin1(t) + StrBody(b, i + |t|).0, StrBody(b, i + |t|).1)
    decreases |t|
  {
    if t == [] {
      var (s, _) := StrBody(b, i);
      assert Latin1(t) + s == s;
    } else {
      AtIndex(b, i, t, 0);
      assert t == [t[0]] + t[1..];
      AtSplit(b, i, [t[0]], t[1..]);
      PlainBytes(b, i + 1, t[1..]);
      StrStep(b, i, "");
      hide StrBody;
      var (s, j) := StrBody(b, i + |t|);
      assert "" + StrBody(b, i).0 == StrBody(b, i).0;
      assert "" + [t[0] as char] + (Latin1(t[1..]) + s) == Latin1(t) + s;
    }
  }

  lemma {:induction false} Utf8Plain(c: char)
    requires c != '"' && c != '\\'
    ensures forall k :: 0 <= k < |Utf8(c)| ==> Utf8(c)[k] != QUOTE && Utf8(c)[k] != BACKSLASH
    ensures Latin1(Utf8(c)) == HeardPiece(Plain(c))
  {
  }

  lemma {:induction false} EscapeRead(b: seq<Byte>, i: nat, e: Byte)
    requires At(b, i, [BACKSLASH, e])
    ensures StrBody(b, i) == ([Unescape(e)] + StrBody(b, i + 2).0, StrBody(b, i + 2).1)
  {
    AtIndex(b, i, [BACKSLASH, e], 0);
    AtIndex(b, i, [BACKSLASH, e], 1);
    StrStep(b, i, "");
    hide StrBody, At;
    assert StrChar(b, i) == (Unescape(e), i + 2);
    EmptyPrefix(StrBody(b, i).0);
    EmptyPrefix([Unescape(e)]);
  }

  lemma {:induction false} EmptyPrefix(s: string)
    ensures "" + s == s
  {
  }

  lemma {:induction false} DigitsPlain(digits: seq<Byte>)
    requires IsPiece(Unicode(digits))
    ensures forall k :: 0 <= k < |digits| ==> digits[k] != QUOTE && digits[k] != BACKSLASH
  {
  }

  lemma {:induction false} PieceRead(b: seq<Byte>, i: nat, p: Piece)
    requires IsPiece(p) && At(b, i, PieceText(p))
    ensures var n := i + |PieceText(p)|;
      StrBody(b, i) == (HeardPiece(p) + StrBody(b, n).0, StrBody(b, n).1)
  {
    hide At, StrBody, Utf8, Latin1;
    match p
    case Plain(c) =>
      Utf8Plain(c);
      PlainBytes(b, i, Utf8(c));
    case Escape(e) => EscapeRead(b, i, e);
    case Unicode(digits) =>
      AtSplit(b, i, [BACKSLASH, LETTER_U], digits);
      EscapeRead(b, i, LETTER_U);
      DigitsPlain(digits);
      PlainBytes(b, i + 2, digits);
      var s := StrBody(b, i + 2 + |digits|).0;
      assert ['u'] + (Latin1(digits) + s) == ['u'] + Latin1(digits) + s;
  }

  /** The first piece of a written string body, and the rest of it behind. */
  lemma {:induction false} FirstPiece(b: seq<Byte>, i: nat, ps: seq<Piece>)
    requires ps != [] && At(b, i, PiecesText(ps) + [QUOTE])
    ensures At(b, i, PieceText(ps[0])) && At(b, i + |PieceText(ps[0])|, PiecesText(ps[1..]) + [QUOTE])
  {
    hide At, PieceText;
    var first, rest := PieceText(ps[0]), PiecesText(ps[1..]);
    Assoc(first, rest, [QUOTE]);
    AtSplit(b, i, first, rest + [QUOTE]);
  }

  lemma {:induction false} BodyEnd(b: seq<Byte>, i: nat)
    requires At(b, i, [QUOTE])
    ensures StrBody(b, i) == ("", i)
  {
    AtByte(b, i, QUOTE);
  }

  /** A written string body is read to its closing quote. */
  lemma {:induction false} BodyRead(b: seq<Byte>, i: nat, ps: seq<Piece>)
    requires ArePieces(ps) && At(b, i, PiecesText(ps) + [QUOTE])
    ensures StrBody(b, i) == (Heard(ps), i + |PiecesText(ps)|)
    decreases |ps|
  {
    hide PieceText, HeardPiece, IsPiece, StrBody, At;
    if ps == [] {
      assert PiecesText(ps) + [QUOTE] == [QUOTE];
      BodyEnd(b, i);
    } else {
      FirstPiece(b, i, ps);
      PieceRead(b, i, ps[0]);
      BodyRead(b, i + |PieceText(ps[0])|, ps[1..]);
    }
  }

  lemma {:induction false} StrRead(b: seq<Byte>, i: nat, ps: seq<Piece>)
    requires ArePieces(ps) && At(b, i, StrText(ps))
    ensures i < |b| && b[i] == QUOTE
    ensures ReadStr(b, i) == Got(Heard(ps), i + |StrText(ps)|)
  {
    hide PiecesText, Heard, StrBody, ArePieces;
    assert StrText(ps) == [QUOTE] + (PiecesText(ps) + [QUOTE]);
    AtSplit(b, i, [QUOTE], PiecesText(ps) + [QUOTE]);
    AtByte(b, i, QUOTE);
    BodyRead(b, i + 1, ps);
  }

  // ------------------------------------------------------------ reading between tokens

  lemma {:induction false} SpaceRead(b: seq<Byte>, i: nat, w: Space)
    requires At(b, i, w) && AllSpace(w)
    ensures SkipSpace(b, i) == SkipSpace(b, i + |w|)
    decreases |w|
  {
    if w != [] {
      AtIndex(b, i, w, 0);
      assert w == [w[0]] + w[1..];
      AtSplit(b, i, [w[0]], w[1..]);
      SpaceRead(b, i + 1, w[1..]);
    }
  }

  lemma {:induction false} NumRead(b: seq<Byte>, i: nat, t: seq<Byte>)
    requires At(b, i, t) && (forall k :: 0 <= k < |t| ==> IsNumByte(t[k]))
    requires i + |t| < |b| ==> !IsNumByte(b[i + |t|])
    ensures NumEnd(b, i) == i + |t|
    decreases |t|
  {
    if t != [] {
      AtIndex(b, i, t, 0);
      assert t == [t[0]] + t[1..];
      AtSplit(b, i, [t[0]], t[1..]);
      NumRead(b, i + 1, t[1..]);
    }
  }

  /** What stands after a value: white space, perhaps a comma, then more or the closing byte. */
  lemma {:induction false} AfterRead(b: seq<Byte>, i: nat, after: Space, more: bool, next: Gap, tail: seq<Byte>)
    requires Apart(after, next, more) && tail != [] && !IsSpace(tail[0]) && tail[0] != COMMA
    requires !more ==> tail[0] == CLOSE_BRACKET || tail[0] == CLOSE_BRACE
    requires At(b, i, after + Separator(next) + tail)
    ensures i < |b| && !IsNumByte(b[i])
    ensures var n := i + |after| + |Separator(next)|;
      SkipSpace(b, PastComma(b, i)) == SkipSpace(b, n) && At(b, n, tail)
  {
    hide At, SkipSpace;
    var sep := Separator(next);
    var n := i + |after| + |sep|;
    AtSplit(b, i, after + sep, tail);
    AtSplit(b, i, after, sep);
    AtIndex(b, n, tail, 0);
    SkipNone(b, n);
    SpaceRead(b, i, after);
    if after != [] { AtIndex(b, i, after, 0); }
    if next.Comma? {
      AtSplit(b, i + |after|, [COMMA], next.space);
      AtByte(b, i + |after|, COMMA);
      SkipNone(b, i + |after|);
      SpaceRead(b, i + |after| + 1, next.space);
    }
  }

  lemma {:induction false} SkipNone(b: seq<Byte>, i: nat)
    requires i < |b| && !IsSpace(b[i])
    ensures SkipSpace(b, i) == i && SkipSpace(b, SkipSpace(b, i)) == i
  {
  }

  // ------------------------------------------------------------ reading documents

  lemma {:induction false} FirstByte(num: NumReader, d: Doc)
    requires Readable(num, d)
    ensures Text(d) != [] && !IsSpace(Text(d)[0])
    ensures Text(d)[0] != CLOSE_BRACKET && Text(d)[0] != CLOSE_BRACE && Text(d)[0] != COMMA
  {
  }

  /** The reader gets a document's value back, and stops right after it; a number must not run
      on into what follows. */
  lemma {:induction false} ValueRead(num: NumReader, d: Doc, b: seq<Byte>, i: nat)
    requires Readable(num, d) && At(b, i, Text(d))
    requires d.DNum? && i + |Text(d)| < |b| ==> !IsNumByte(b[i + |Text(d)|])
    ensures ReadValue(num, b, i) == Got(Value(num, d), i + |Text(d)|)
    decreases d, 0
  {
    hide At, ReadFields, ReadItems, ReadStr, SkipSpace, StrText, ElemsText, MembersText, ArePieces;
    FirstByte(num, d);
    AtIndex(b, i, Text(d), 0);
    SkipNone(b, i);
    match d
    case DNum(token) => TokenRead(num, b, i, token);
    case DStr(ps) => StrRead(b, i, ps);
    case DArr(inner, elems) =>
      assert Text(d) == [OPEN_BRACKET] + inner + (ElemsText(elems) + [CLOSE_BRACKET]);
      BracketRead(b, i, OPEN_BRACKET, inner, ElemsText(elems) + [CLOSE_BRACKET]);
      ElemsRead(num, elems, b, i + 1 + |inner|, []);
      ItemsSkip(num, b, i + 1, i + 1 + |inner|, []);
      assert [] + ElemValues(num, elems) == ElemValues(num, elems);
    case DObj(inner, members) =>
      assert Text(d) == [OPEN_BRACE] + inner + (MembersText(members) + [CLOSE_BRACE]);
      BracketRead(b, i, OPEN_BRACE, inner, MembersText(members) + [CLOSE_BRACE]);
      MembersRead(num, members, b, i + 1 + |inner|, map[]);
      FieldsSkip(num, b, i + 1, i + 1 + |inner|, map[]);
      assert map[] + MemberValues(num, members) == MemberValues(num, members);
    case _ =>
  }

  lemma {:induction false} TokenRead(num: NumReader, b: seq<Byte>, i: nat, token: seq<Byte>)
    requires IsToken(num, token) && At(b, i, token) && i < |b|
    requires i + |token| < |b| ==> !IsNumByte(b[i + |token|])
    ensures ReadNum(num, b, i) == Got(Num(num(token).value), i + |token|)
  {
    NumRead(b, i, token);
    assert b[i..i + |token|] == token;
  }

  lemma {:induction false} BracketRead(b: seq<Byte>, i: nat, open: Byte, inner: Space, rest: seq<Byte>)
    requires AllSpace(inner) && At(b, i, [open] + inner + rest)
    ensures SkipSpace(b, i + 1) == SkipSpace(b, i + 1 + |inner|) && At(b, i + 1 + |inner|, rest)
  {
    hide SkipSpace;
    assert [open] + inner + rest == [open] + (inner + rest);
    AtSplit(b, i, [open], inner + rest);
    AtSplit(b, i + 1, inner, rest);
    SpaceRead(b, i + 1, inner);
  }

  lemma {:induction false} ValueSkip(num: NumReader, b: seq<Byte>, i: nat, j: nat)
    requires SkipSpace(b, i) == SkipSpace(b, j)
    ensures ReadValue(num, b, i) == ReadValue(num, b, j)
  {
    hide ReadItems, ReadFields, ReadNum, ReadStr;
  }

  lemma {:induction false} ItemsSkip(num: NumReader, b: seq<Byte>, i: nat, j: nat, a: seq<Json>)
    requires SkipSpace(b, i) == SkipSpace(b, j)
    ensures ReadItems(num, b, i, a) == ReadItems(num, b, j, a)
  {
    hide ReadValue;
  }

  lemma {:induction false} FieldsSkip(num: NumReader, b: seq<Byte>, i: nat, j: nat, m: map<string, Json>)
    requires SkipSpace(b, i) == SkipSpace(b, j)
    ensures ReadFields(num, b, i, m) == ReadFields(num, b, j, m)
  {
    hide ReadValue;
  }

  lemma {:induction false} ItemsStep(num: NumReader, b: seq<Byte>, i: nat, a: seq<Json>, v: Json, n: nat, p: nat)
    requires i < |b| && !IsSpace(b[i]) && b[i] != CLOSE_BRACKET
    requires ReadValue(num, b, i) == Got(v, n) && SkipSpace(b, PastComma(b, n)) == SkipSpace(b, p)
    ensures ReadItems(num, b, i, a) == ReadItems(num, b, p, a + [v])
  {
    hide ReadValue, PastComma;
    ItemsSkip(num, b, PastComma(b, n), p, a + [v]);
  }

  lemma {:induction false} FieldsStep(num: NumReader, b: seq<Byte>, i: nat, m: map<string, Json>,
                                     key: string, k: nat, c: nat, v: Json, n: nat, p: nat)
    requires i < |b| && b[i] == QUOTE && ReadStr(b, i) == Got(key, k)
    requires SkipSpace(b, k) == SkipSpace(b, c) && c < |b| && b[c] == COLON
    requires ReadValue(num, b, c + 1) == Got(v, n) && SkipSpace(b, PastComma(b, n)) == SkipSpace(b, p)
    ensures ReadFields(num, b, i, m) == ReadFields(num, b, p, m[key := v])
  {
    hide ReadValue, PastComma, ReadStr;
    SkipNone(b, i);
    SkipNone(b, c);
    FieldsSkip(num, b, PastComma(b, n), p, m[key := v]);
  }

  lemma {:induction false} ElemUnfolds(num: NumReader, es: Elems, a: seq<Json>)
    requires es.Elem? && ElemsReadable(num, es)
    ensures ElemsText(es) + [CLOSE_BRACKET]
            == Text(es.value) + (es.after + Separator(es.next) + (ElemsText(es.rest) + [CLOSE_BRACKET]))
    ensures |ElemsText(es)|
            == |Text(es.value)| + |es.after| + |Separator(es.next)| + |ElemsText(es.rest)|
    ensures Readable(num, es.value) && Apart(es.after, es.next, es.rest.Elem?) && ElemsReadable(num, es.rest)
    ensures a + [Value(num, es.value)] + ElemValues(num, es.rest) == a + ElemValues(num, es)
  {
    hide Text, Value, Separator, Readable;
  }

  lemma {:induction false} MemberUnfolds(num: NumReader, ms: Members, m: map<string, Json>)
    requires ms.Member? && MembersReadable(num, ms)
    ensures |MembersText(ms)|
            == |StrText(ms.key)| + |ms.before| + 1 + |ms.colon| + |Text(ms.value)| + |ms.after|
               + |Separator(ms.next)| + |MembersText(ms.rest)|
    ensures Readable(num, ms.value) && AllSpace(ms.colon) && MembersReadable(num, ms.rest)
    ensures m[Heard(ms.key) := Value(num, ms.value)] + MemberValues(num, ms.rest) == m + MemberValues(num, ms)
  {
    hide Text, Value, Separator, StrText, Heard, Readable;
  }

  /** Where the first element's value stands, and what follows it. */
  lemma {:induction false} ElemPlaces(num: NumReader, es: Elems, b: seq<Byte>, i: nat)
    requires es.Elem? && ElemsReadable(num, es) && At(b, i, ElemsText(es) + [CLOSE_BRACKET])
    ensures At(b, i, Text(es.value)) && |Text(es.value)| > 0
    ensures i < |b| && !IsSpace(b[i]) && b[i] != CLOSE_BRACKET
    ensures At(b, i + |Text(es.value)|,
               es.after + Separator(es.next) + (ElemsText(es.rest) + [CLOSE_BRACKET]))
  {
    hide *;
    ElemUnfolds(num, es, []);
    AtSplit(b, i, Text(es.value),
            es.after + Separator(es.next) + (ElemsText(es.rest) + [CLOSE_BRACKET]));
    FirstByte(num, es.value);
    AtIndex(b, i, Text(es.value), 0);
  }

  /** Where the parts of the first element stand, and where the next one begins. */
  lemma {:induction false} ElemParts(num: NumReader, es: Elems, b: seq<Byte>, i: nat)
    requires es.Elem? && ElemsReadable(num, es) && At(b, i, ElemsText(es) + [CLOSE_BRACKET])
    ensures var n := i + |Text(es.value)|;
      var p := n + |es.after| + |Separator(es.next)|;
      && At(b, i, Text(es.value)) && i < n < |b| && !IsNumByte(b[n])
      && !IsSpace(b[i]) && b[i] != CLOSE_BRACKET
      && SkipSpace(b, PastComma(b, n)) == SkipSpace(b, p)
      && At(b, p, ElemsText(es.rest) + [CLOSE_BRACKET])
  {
    hide *;
    ElemUnfolds(num, es, []);
    ElemPlaces(num, es, b, i);
    ElemsFirst(num, es.rest);
    AfterRead(b, i + |Text(es.value)|, es.after, es.rest.Elem?, es.next, ElemsText(es.rest) + [CLOSE_BRACKET]);
  }

  lemma {:induction false} NoElemsRead(num: NumReader, b: seq<Byte>, i: nat, a: seq<Json>)
    requires At(b, i, ElemsText(NoElems) + [CLOSE_BRACKET])
    ensures ReadItems(num, b, i, a) == Got(Arr(a + ElemValues(num, NoElems)), i + |ElemsText(NoElems)| + 1)
  {
    AtByte(b, i, CLOSE_BRACKET);
    assert a + [] == a;
  }

  lemma {:induction false} NoMembersRead(num: NumReader, b: seq<Byte>, i: nat, m: map<string, Json>)
    requires At(b, i, MembersText(NoMembers) + [CLOSE_BRACE])
    ensures ReadFields(num, b, i, m) == Got(Obj(m + MemberValues(num, NoMembers)), i + |MembersText(NoMembers)| + 1)
  {
    AtByte(b, i, CLOSE_BRACE);
    assert m + map[] == m;
  }

  lemma {:induction false} ElemsRead(num: NumReader, es: Elems, b: seq<Byte>, i: nat, a: seq<Json>)
    requires ElemsReadable(num, es) && At(b, i, ElemsText(es) + [CLOSE_BRACKET])
    ensures ReadItems(num, b, i, a) == Got(Arr(a + ElemValues(num, es)), i + |ElemsText(es)| + 1)
    decreases es
  {
    hide *;
    match es
    case NoElems =>
      NoElemsRead(num, b, i, a);
    case Elem(value, after, next, rest) =>
      ElemUnfolds(num, es, a);
      ElemParts(num, es, b, i);
      var n := i + |Text(value)|;
      var p := n + |after| + |Separator(next)|;
      ValueRead(num, value, b, i);
      ItemsStep(num, b, i, a, Value(num, value), n, p);
      ElemsRead(num, rest, b, p, a + [Value(num, value)]);
  }

  lemma {:induction false} ElemsFirst(num: NumReader, es: Elems)
    requires ElemsReadable(num, es)
    ensures var t := ElemsText(es) + [CLOSE_BRACKET];
      !IsSpace(t[0]) && t[0] != COMMA && (es.NoElems? ==> t[0] == CLOSE_BRACKET)
  {
    if es.Elem? { FirstByte(num, es.value); }
  }

  lemma {:induction false} MembersRead(num: NumReader, ms: Members, b: seq<Byte>, i: nat, m: map<string, Json>)
    requires MembersReadable(num, ms) && At(b, i, MembersText(ms) + [CLOSE_BRACE])
    ensures ReadFields(num, b, i, m) == Got(Obj(m + MemberValues(num, ms)), i + |MembersText(ms)| + 1)
    decreases ms
  {
    hide *;
    match ms
    case NoMembers =>
      NoMembersRead(num, b, i, m);
    case Member(key, before, colon, value, after, next, rest) =>
      MemberUnfolds(num, ms, m);
      MemberRead(num, ms, b, i);
      var k := i + |StrText(key)|;
      var c := k + |before|;
      var n := c + 1 + |colon| + |Text(value)|;
      var p := n + |after| + |Separator(next)|;
      ValueAfterSpace(num, value, colon, b, c + 1);
      FieldsStep(num, b, i, m, Heard(key), k, c, Value(num, value), n, p);
      MembersRead(num, rest, b, p, m[Heard(key) := Value(num, value)]);
  }

  /** The key, the colon and the end of the first member are read in their places. */
  lemma {:induction false} MemberRead(num: NumReader, ms: Members, b: seq<Byte>, i: nat)
    requires ms.Member? && MembersReadable(num, ms) && At(b, i, MembersText(ms) + [CLOSE_BRACE])
    ensures var k := i + |StrText(ms.key)|;
      var c := k + |ms.before|;
      var n := c + 1 + |ms.colon| + |Text(ms.value)|;
      var p := n + |ms.after| + |Separator(ms.next)|;
      && i < |b| && b[i] == QUOTE && ReadStr(b, i) == Got(Heard(ms.key), k)
      && SkipSpace(b, k) == SkipSpace(b, c) && c < |b| && b[c] == COLON
      && At(b, c + 1, ms.colon + Text(ms.value)) && n < |b| && !IsNumByte(b[n])
      && SkipSpace(b, PastComma(b, n)) == SkipSpace(b, p)
      && At(b, p, MembersText(ms.rest) + [CLOSE_BRACE])
  {
    hide At, SkipSpace, ReadStr, Text, Separator, StrText, PastComma, Heard, MembersText;
    var k := i + |StrText(ms.key)|;
    var c := k + |ms.before|;
    var n := c + 1 + |ms.colon| + |Text(ms.value)|;
    MemberParts(num, ms, b, i);
    StrRead(b, i, ms.key);
    SpaceRead(b, k, ms.before);
    AtByte(b, c, COLON);
    MembersFirst(ms.rest);
    AfterRead(b, n, ms.after, ms.rest.Member?, ms.next, MembersText(ms.rest) + [CLOSE_BRACE]);
  }

  lemma {:induction false} Regroup<T>(a: seq<T>, b: seq<T>, c: seq<T>, d: seq<T>, e: seq<T>, f: seq<T>, g: seq<T>,
                                      h: seq<T>, i: seq<T>)
    ensures a + b + c + d + e + f + g + h + i == a + (b + (c + ((d + e) + (f + g + (h + i)))))
  {
  }

  /** Where the parts of the first member stand. */
  lemma {:induction false} MemberParts(num: NumReader, ms: Members, b: seq<Byte>, i: nat)
    requires ms.Member? && At(b, i, MembersText(ms) + [CLOSE_BRACE])
    ensures var k := i + |StrText(ms.key)|;
      var c := k + |ms.before|;
      && At(b, i, StrText(ms.key)) && At(b, k, ms.before) && At(b, c, [COLON])
      && At(b, c + 1, ms.colon + Text(ms.value))
      && At(b, c + 1 + |ms.colon| + |Text(ms.value)|,
            ms.after + Separator(ms.next) + (MembersText(ms.rest) + [CLOSE_BRACE]))
  {
    hide At, StrText, Text, Separator;
    var t0, t3 := StrText(ms.key), ms.colon + Text(ms.value);
    var t4 := ms.after + Separator(ms.next) + (MembersText(ms.rest) + [CLOSE_BRACE]);
    Regroup(t0, ms.before, [COLON], ms.colon, Text(ms.value), ms.after, Separator(ms.next),
            MembersText(ms.rest), [CLOSE_BRACE]);
    assert MembersText(ms) + [CLOSE_BRACE] == t0 + (ms.before + ([COLON] + (t3 + t4)));
    AtSplit(b, i, t0, ms.before + ([COLON] + (t3 + t4)));
    AtSplit(b, i + |t0|, ms.before, [COLON] + (t3 + t4));
    AtSplit(b, i + |t0| + |ms.before|, [COLON], t3 + t4);
    AtSplit(b, i + |t0| + |ms.before| + 1, t3, t4);
  }

  lemma {:induction false} ValueAfterSpace(num: NumReader, d: Doc, w: Space, b: seq<Byte>, i: nat)
    requires Readable(num, d) && AllSpace(w) && At(b, i, w + Text(d))
    requires i + |w| + |Text(d)| < |b| && !IsNumByte(b[i + |w| + |Text(d)|])
    ensures ReadValue(num, b, i) == Got(Value(num, d), i + |w| + |Text(d)|)
    decreases d, 1
  {
    hide ReadValue, SkipSpace, Text, Value, Readable, At;
    AtSplit(b, i, w, Text(d));
    SpaceRead(b, i, w);
    ValueRead(num, d, b, i + |w|);
    ValueSkip(num, b, i, i + |w|);
  }

  lemma {:induction false} MembersFirst(ms: Members)
    ensures var t := MembersText(ms) + [CLOSE_BRACE];
      !IsSpace(t[0]) && t[0] != COMMA && (ms.NoMembers? ==> t[0] == CLOSE_BRACE)
  {
  }

  // ------------------------------------------------------------ what is read although it is no text

  /** A literal is known by its first letter: whatever the next ones are, they are passed over. */
  lemma {:induction false} LooseLiterals(num: NumReader, w: Space, tail: seq<Byte>)
    requires AllSpace(w)
    ensures ReadValue(num, w + [LETTER_T] + tail, 0) == Got(Bool(true), |w| + 4)
    ensures ReadValue(num, w + [LETTER_F] + tail, 0) == Got(Bool(false), |w| + 5)
    ensures ReadValue(num, w + [LETTER_N] + tail, 0) == Got(Null, |w| + 4)
  {
    LooseLiteral(num, w, LETTER_T, tail);
    LooseLiteral(num, w, LETTER_F, tail);
    LooseLiteral(num, w, LETTER_N, tail);
  }

  lemma {:induction false} LooseLiteral(num: NumReader, w: Space, c: Byte, tail: seq<Byte>)
    requires AllSpace(w) && c in {LETTER_T, LETTER_F, LETTER_N}
    ensures ReadValue(num, w + [c] + tail, 0)
      == if c == LETTER_T then Got(Bool(true), |w| + 4)
         else if c == LETTER_F then Got(Bool(false), |w| + 5)
         else Got(Null, |w| + 4)
  {
    hide SkipSpace, ReadFields, ReadItems, ReadStr, ReadNum;
    var b := w + [c] + tail;
    assert b == w + ([c] + tail);
    SpaceBefore(b, w, [c] + tail);
  }

  /** A string that is never closed ends with the text, a last backslash standing for itself. */
  lemma {:induction false} UnclosedString(num: NumReader, w: Space, t: seq<Byte>)
    requires AllSpace(w) && forall k :: 0 <= k < |t| ==> t[k] != QUOTE && t[k] != BACKSLASH
    ensures ReadValue(num, w + [QUOTE] + t, 0) == Got(Str(Latin1(t)), |w| + 1 + |t| + 1)
    ensures ReadValue(num, w + [QUOTE] + (t + [BACKSLASH]), 0) == Got(Str(Latin1(t) + "\\"), |w| + 1 + |t| + 2)
  {
    Unclosed(num, w, t, []);
    Unclosed(num, w, t, [BACKSLASH]);
    assert t + [] == t && Latin1(t) + Latin1([]) == Latin1(t);
    assert Latin1([BACKSLASH]) == "\\";
  }

  lemma {:induction false} Unclosed(num: NumReader, w: Space, t: seq<Byte>, end: seq<Byte>)
    requires AllSpace(w) && (forall k :: 0 <= k < |t| ==> t[k] != QUOTE && t[k] != BACKSLASH)
    requires end == [] || end == [BACKSLASH]
    ensures ReadValue(num, w + [QUOTE] + (t + end), 0) == Got(Str(Latin1(t) + Latin1(end)), |w| + 1 + |t| + |end| + 1)
  {
    hide SkipSpace, ReadFields, ReadItems, ReadNum, StrBody, Latin1;
    var b := w + [QUOTE] + (t + end);
    var i := |w| + 1;
    assert b == w + ([QUOTE] + (t + end));
    SpaceBefore(b, w, [QUOTE] + (t + end));
    SpaceEnds(b, |w|);
    assert At(b, i, t) && |b| == i + |t| + |end| && (end != [] ==> b[i + |t|] == BACKSLASH);
    PlainBytes(b, i, t);
    BodyEnds(b, i + |t|);
  }

  lemma {:induction false} BodyEnds(b: seq<Byte>, i: nat)
    ensures i == |b| ==> StrBody(b, i) == (Latin1([]), i)
    ensures i + 1 == |b| && b[i] == BACKSLASH ==> StrBody(b, i) == (Latin1([BACKSLASH]), i + 1)
  {
  }

  // ------------------------------------------------------------ what cannot be read

  lemma {:induction false} SpaceBefore(b: seq<Byte>, w: Space, tail: seq<Byte>)
    requires AllSpace(w) && b == w + tail && (tail != [] ==> !IsSpace(tail[0]))
    ensures SkipSpace(b, 0) == |w| && (tail != [] ==> b[|w|] == tail[0])
  {
    hide SkipSpace;
    assert At(b, 0, w);
    SpaceRead(b, 0, w);
    SpaceEnds(b, |w|);
  }

  lemma {:induction false} SpaceEnds(b: seq<Byte>, i: nat)
    ensures i >= |b| || !IsSpace(b[i]) ==> SkipSpace(b, i) == i
  {
  }

  /** White space alone is no value. */
  lemma {:induction false} NothingToRead(num: NumReader, w: Space)
    requires AllSpace(w)
    ensures ReadValue(num, w, 0) == Bad(UnexpectedEnd)
  {
    hide SkipSpace;
    assert w == w + [];
    SpaceBefore(w, w, []);
  }

  /** A byte that begins no value is refused as a number. */
  lemma {:induction false} NoValueBegins(num: NumReader, w: Space, c: Byte, tail: seq<Byte>)
    requires AllSpace(w) && !IsSpace(c) && !IsNumByte(c)
    requires c !in {OPEN_BRACE, OPEN_BRACKET, QUOTE, LETTER_T, LETTER_F, LETTER_N}
    ensures ReadValue(num, w + [c] + tail, 0) == Bad(BadNumber)
  {
    hide SkipSpace, ReadFields, ReadItems, ReadStr;
    var b := w + [c] + tail;
    assert b == w + ([c] + tail);
    SpaceBefore(b, w, [c] + tail);
    assert b[|w|..|w|] == [];
  }

  /** A run of number bytes that is no number is refused. */
  lemma {:induction false} NoNumber(num: NumReader, w: Space, token: seq<Byte>, tail: seq<Byte>)
    requires AllSpace(w) && token != [] && (forall i :: 0 <= i < |token| ==> IsNumByte(token[i]))
    requires num(token).None? && (tail != [] ==> !IsNumByte(tail[0]))
    ensures ReadValue(num, w + token + tail, 0) == Bad(BadNumber)
  {
    hide SkipSpace, ReadFields, ReadItems, ReadStr, NumEnd;
    var b := w + token + tail;
    assert b == w + (token + tail);
    SpaceBefore(b, w, token + tail);
    assert At(b, |w|, token);
    assert b[|w|] == token[0];
    NumRead(b, |w|, token);
  }

  /** In an object anything but a quote or the closing brace where a key is due is refused, the end of
      the text included. */
  lemma {:induction false} NoKey(num: NumReader, w: Space, v: Space, tail: seq<Byte>)
    requires AllSpace(w) && AllSpace(v)
    requires tail != [] ==> !IsSpace(tail[0]) && tail[0] != QUOTE && tail[0] != CLOSE_BRACE
    ensures ReadValue(num, w + [OPEN_BRACE] + v + tail, 0) == Bad(ExpectedString)
  {
    hide SkipSpace, At, ReadValue;
    var b := w + [OPEN_BRACE] + v + tail;
    ObjectOpens(num, w, v, tail);
    if tail != [] { AtIndex(b, |w| + 1 + |v|, tail, 0); }
    SpaceEnds(b, |w| + 1 + |v|);
  }

  /** Where the object of a text opens and what stands in it. */
  lemma {:induction false} OpenPlaces(w: Space, v: Space, tail: seq<Byte>)
    ensures var b := w + [OPEN_BRACE] + v + tail;
      && At(b, 0, w) && |w| < |b| && b[|w|] == OPEN_BRACE
      && At(b, |w|, [OPEN_BRACE] + v + tail) && At(b, |w| + 1 + |v|, tail)
      && |b| == |w| + 1 + |v| + |tail|
  {
    var b := w + [OPEN_BRACE] + v + tail;
    assert b == w + ([OPEN_BRACE] + v + tail);
  }

  lemma {:induction false} OpenRead(num: NumReader, b: seq<Byte>, i: nat)
    requires SkipSpace(b, 0) == i && i < |b| && b[i] == OPEN_BRACE
    ensures ReadValue(num, b, 0) == ReadFields(num, b, i + 1, map[])
  {
    hide SkipSpace, ReadFields;
  }

  lemma {:induction false} ObjectOpens(num: NumReader, w: Space, v: Space, tail: seq<Byte>)
    requires AllSpace(w) && AllSpace(v) && (tail != [] ==> !IsSpace(tail[0]))
    ensures var b := w + [OPEN_BRACE] + v + tail;
      && ReadValue(num, b, 0) == ReadFields(num, b, |w| + 1, map[])
      && SkipSpace(b, |w| + 1) == |w| + 1 + |v| && At(b, |w| + 1 + |v|, tail)
      && |b| == |w| + 1 + |v| + |tail|
  {
    hide SkipSpace, ReadFields, ReadValue, At;
    var b := w + [OPEN_BRACE] + v + tail;
    OpenPlaces(w, v, tail);
    SpaceRead(b, 0, w);
    SpaceEnds(b, |w|);
    OpenRead(num, b, |w|);
    BracketRead(b, |w|, OPEN_BRACE, v, tail);
    if tail != [] { AtIndex(b, |w| + 1 + |v|, tail, 0); }
    SpaceEnds(b, |w| + 1 + |v|);
  }

  lemma {:induction false} FieldNeedsColon(num: NumReader, b: seq<Byte>, i: nat, j: nat, key: string, k: nat, c: nat)
    requires SkipSpace(b, i) == j && j < |b| && b[j] == QUOTE && ReadStr(b, j) == Got(key, k)
    requires SkipSpace(b, k) == c && (c < |b| ==> b[c] != COLON)
    ensures ReadFields(num, b, i, map[]) == Bad(ExpectedColon)
  {
    hide SkipSpace, ReadStr, ReadValue;
  }

  /** Behind a key anything but a colon is refused, the end of the text included. */
  lemma {:induction false} NoColon(num: NumReader, w: Space, v: Space, key: seq<Piece>, u: Space, tail: seq<Byte>)
    requires AllSpace(w) && AllSpace(v) && AllSpace(u) && ArePieces(key)
    requires tail != [] ==> !IsSpace(tail[0]) && tail[0] != COLON
    ensures ReadValue(num, w + [OPEN_BRACE] + v + (StrText(key) + (u + tail)), 0) == Bad(ExpectedColon)
  {
    hide SkipSpace, ReadStr, StrText, ArePieces, Heard, At, ReadValue, ReadFields;
    var rest := StrText(key) + (u + tail);
    var b := w + [OPEN_BRACE] + v + rest;
    var i := |w| + 1 + |v|;
    var k := i + |StrText(key)|;
    var c := k + |u|;
    QuoteFirst(key);
    ObjectOpens(num, w, v, rest);
    AtSplit(b, i, StrText(key), u + tail);
    AtSplit(b, k, u, tail);
    StrRead(b, i, key);
    SpaceRead(b, k, u);
    if tail != [] { AtIndex(b, c, tail, 0); }
    SpaceEnds(b, c);
    FieldNeedsColon(num, b, |w| + 1, i, Heard(key), k, c);
  }

  lemma {:induction false} QuoteFirst(ps: seq<Piece>)
    ensures StrText(ps) != [] && StrText(ps)[0] == QUOTE
  {
  }
}
