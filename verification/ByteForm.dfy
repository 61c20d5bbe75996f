/** The byte form of a program: an opcode byte per op, followed by its operand.  Slots are not
    written, and a parameter keeps only its low sixteen bits. */
module ByteForm {
  import opened Bytes
  import opened Indicators
  import opened Bytecode
  import opened Graph
  import opened TreeCode
  import opened CompilerCorrectness
  import opened Options
  import opened Sequences

  /** How a constant is written as eight bytes, and how those are read back. */
  type Writer = real -> seq<Byte>
  type Reader = seq<Byte> -> real

  const U16: nat := 65536

  function Opcode(op: Op): Byte {
    match op
    case PushPrice => 0x41
    case PushConst(_) => 0x40
    case Ema(_, _) => 0x60
    case Momentum(_, _) => 0x61
    case Reversion(_, _) => 0x62
    case Gt => 0x50
    case Lt => 0x51
    case Ge => 0x52
    case Le => 0x53
    case Eq => 0x54
    case And => 0x10
    case Or => 0x11
    case Not => 0x12
    case Buy => 0x30
    case Sell => 0x31
  }

  /** A parameter cast to sixteen bits, low byte first. */
  function U16Bytes(n: nat): seq<Byte> {
    [n % U16 % 256, n % U16 / 256]
  }

  function FromU16(low: int, high: int): int {
    low + 256 * high
  }

  function Param(op: Op): nat
    requires op.IsStateful()
  {
    match op
    case Ema(_, period) => period
    case Momentum(_, lookback) => lookback
    case Reversion(_, window) => window
  }

  function Operand(write: Writer, op: Op): seq<Byte> {
    if op.PushConst? then write(op.c)
    else if op.IsStateful() then U16Bytes(Param(op))
    else []
  }

  function Encode(write: Writer, prog: seq<Op>): seq<Byte> {
    if prog == [] then []
    else Encode(write, prog[..|prog| - 1]) + [Opcode(prog[|prog| - 1])] + Operand(write, prog[|prog| - 1])
  }

  method ProgramToBytes(prog: seq<Op>, write: Writer) returns (out: seq<Byte>)
    ensures out == Encode(write, prog)
  {
    out := [];
    var i := 0;
    while i < |prog|
      invariant i <= |prog| && out == Encode(write, prog[..i])
    {
      var op := prog[i];
      assert prog[..i + 1][..i] == prog[..i];
      out := out + [Opcode(op)];
      match op {
        case PushConst(c) => out := out + write(c);
        case Ema(_, period) => out := out + U16Bytes(period);
        case Momentum(_, lookback) => out := out + U16Bytes(lookback);
        case Reversion(_, window) => out := out + U16Bytes(window);
        case _ =>
      }
      i := i + 1;
    }
    assert prog[..i] == prog;
  }

  // ------------------------------------------------------------ byte by byte

  /** The bytes of one op: its code in the platform's opcode space, then a constant as it is written or
      a parameter's two low bytes, the lower one first. */
  ghost predicate OpBytes(write: Writer, op: Op, bytes: seq<Byte>) {
    match op
    case PushPrice => bytes == [0x41]
    case PushConst(c) => bytes == [0x40] + write(c)
    case Ema(_, period) => bytes == [0x60, period % 256, period / 256 % 256]
    case Momentum(_, lookback) => bytes == [0x61, lookback % 256, lookback / 256 % 256]
    case Reversion(_, window) => bytes == [0x62, window % 256, window / 256 % 256]
    case Gt => bytes == [0x50]
    case Lt => bytes == [0x51]
    case Ge => bytes == [0x52]
    case Le => bytes == [0x53]
    case Eq => bytes == [0x54]
    case And => bytes == [0x10]
    case Or => bytes == [0x11]
    case Not => bytes == [0x12]
    case Buy => bytes == [0x30]
    case Sell => bytes == [0x31]
  }

  lemma {:induction false} LowBytes(n: nat)
    ensures n % U16 % 256 == n % 256 && n % U16 / 256 == n / 256 % 256
  {
    var q, r := n / U16, n % U16;
    assert n == q * U16 + r;
    assert n == (q * 256 + r / 256) * 256 + r % 256;
    assert n / 256 == q * 256 + r / 256;
  }

  lemma {:induction false} OneOpBytes(write: Writer, op: Op)
    ensures OpBytes(write, op, [Opcode(op)] + Operand(write, op))
  {
    if op.IsStateful() { LowBytes(Param(op)); }
  }

  lemma {:induction false} EncodePrefix(write: Writer, prog: seq<Op>, k: nat)
    requires k <= |prog|
    ensures Encode(write, prog[..k]) <= Encode(write, prog)
  {
    hide Opcode, Operand;
    if k == |prog| {
      assert prog[..k] == prog;
    } else {
      assert prog[..|prog| - 1][..k] == prog[..k];
      EncodePrefix(write, prog[..|prog| - 1], k);
    }
  }

  /** The k-th op of a program stands behind the bytes of those before it, in its own bytes. */
  lemma {:induction false} EncodedOp(write: Writer, prog: seq<Op>, k: nat)
    requires k < |prog|
    ensures var bytes, from, to := Encode(write, prog), |Encode(write, prog[..k])|, |Encode(write, prog[..k + 1])|;
      from <= to <= |bytes| && OpBytes(write, prog[k], bytes[from..to])
  {
    hide OpBytes, Opcode, Operand;
    OneOpBytes(write, prog[k]);
    EncodePrefix(write, prog, k + 1);
    assert prog[..k + 1][..k] == prog[..k];
    var before, own := Encode(write, prog[..k]), [Opcode(prog[k])] + Operand(write, prog[k]);
    assert Encode(write, prog[..k + 1]) == before + own by {
      Assoc(before, [Opcode(prog[k])], Operand(write, prog[k]));
    }
    hide Encode;
    assert Encode(write, prog)[|before|..|before + own|] == own;
  }

  // ------------------------------------------------------------ reading it back

  /** The op that does not read an operand, if the byte is its opcode. */
  function PlainOp(code: Byte): Option<Op> {
    if code == 0x41 then Some(PushPrice)
    else if code == 0x50 then Some(Gt)
    else if code == 0x51 then Some(Lt)
    else if code == 0x52 then Some(Ge)
    else if code == 0x53 then Some(Le)
    else if code == 0x54 then Some(Op.Eq)
    else if code == 0x10 then Some(And)
    else if code == 0x11 then Some(Or)
    else if code == 0x12 then Some(Not)
    else if code == 0x30 then Some(Buy)
    else if code == 0x31 then Some(Sell)
    else None
  }

  /** The first op of some bytes and how many bytes it takes; state cells are numbered as met. */
  function DecodeOp(read: Reader, bytes: seq<Byte>, slot: nat): (r: Option<(Op, nat)>)
    requires bytes != []
    ensures r.Some? ==> 1 <= r.value.1 <= |bytes|
  {
    var code := bytes[0];
    if code == 0x40 then
      if |bytes| < 9 then None else Some((PushConst(read(bytes[1..9])), 9))
    else if 0x60 <= code <= 0x62 then
      if |bytes| < 3 then None
      else
        var n: nat := FromU16(bytes[1], bytes[2]);
        Some((if code == 0x60 then Ema(slot, n) else if code == 0x61 then Momentum(slot, n) else Reversion(slot, n), 3))
    else
      match PlainOp(code)
      case Some(op) => Some((op, 1))
      case None => None
  }

  function Decode(read: Reader, bytes: seq<Byte>, slot: nat): Option<seq<Op>>
    decreases |bytes|
  {
    if bytes == [] then Some([])
    else
      match DecodeOp(read, bytes, slot)
      case None => None
      case Some((op, n)) =>
        match Decode(read, bytes[n..], if op.IsStateful() then slot + 1 else slot)
        case None => None
        case Some(ops) => Some([op] + ops)
  }

  // ------------------------------------------------------------ what is kept

  /** An op with its parameter cut to sixteen bits. */
  function Cut(op: Op): Op {
    match op
    case Ema(slot, period) => Ema(slot, period % U16)
    case Momentum(slot, lookback) => Momentum(slot, lookback % U16)
    case Reversion(slot, window) => Reversion(slot, window % U16)
    case _ => op
  }

  function CutAll(prog: seq<Op>): seq<Op> {
    seq(|prog|, i requires 0 <= i < |prog| => Cut(prog[i]))
  }

  /** The program's constants survive the writer and reader. */
  ghost predicate Survives(write: Writer, read: Reader, op: Op) {
    op.PushConst? ==> |write(op.c)| == 8 && read(write(op.c)) == op.c
  }

  ghost predicate AllSurvive(write: Writer, read: Reader, prog: seq<Op>) {
    forall i :: 0 <= i < |prog| ==> Survives(write, read, prog[i])
  }

  predicate SmallParams(prog: seq<Op>) {
    forall i :: 0 <= i < |prog| && prog[i].IsStateful() ==> Param(prog[i]) < U16
  }

  /** One op and whatever follows it: the decoder takes exactly the op's own bytes. */
  lemma {:induction false} DecodeOne(write: Writer, read: Reader, op: Op, rest: seq<Byte>, slot: nat)
    requires Survives(write, read, op) && (op.IsStateful() ==> op.slot == slot)
    ensures var bytes := [Opcode(op)] + Operand(write, op) + rest;
      && DecodeOp(read, bytes, slot) == Some((Cut(op), 1 + |Operand(write, op)|))
      && bytes[1 + |Operand(write, op)|..] == rest
  {
    var bytes := [Opcode(op)] + Operand(write, op) + rest;
    if op.PushConst? {
      assert bytes[1..9] == write(op.c);
    } else if op.IsStateful() {
      var n := Param(op) % U16;
      assert FromU16(bytes[1], bytes[2]) == n;
    }
  }

  lemma {:induction false} EncodeCons(write: Writer, op: Op, prog: seq<Op>)
    ensures Encode(write, [op] + prog) == [Opcode(op)] + Operand(write, op) + Encode(write, prog)
  {
    hide Opcode, Operand;
    var all := [op] + prog;
    if prog == [] {
      assert all[..0] == [];
      assert all == [op];
    } else {
      var init, last := prog[..|prog| - 1], prog[|prog| - 1];
      EncodeCons(write, op, init);
      assert all[..|all| - 1] == [op] + init && all[|all| - 1] == last;
      var first := [Opcode(op)] + Operand(write, op);
      Assoc(first, Encode(write, init), [Opcode(last)]);
      Assoc(first, Encode(write, init) + [Opcode(last)], Operand(write, last));
    }
  }

  lemma {:induction false} CutSame(write: Writer, op: Op)
    ensures Cut(op).IsStateful() == op.IsStateful()
    ensures Opcode(Cut(op)) == Opcode(op) && Operand(write, Cut(op)) == Operand(write, op)
  {
    hide U16Bytes;
    if op.IsStateful() { CutBytes(Param(op)); }
  }

  lemma {:induction false} CutBytes(n: nat)
    ensures U16Bytes(n % U16) == U16Bytes(n)
  {
    assert n % U16 % U16 == n % U16;
  }

  lemma {:induction false} DecodeFirst(write: Writer, read: Reader, op: Op, rest: seq<Byte>, ops: seq<Op>, slot: nat)
    requires Survives(write, read, op) && (op.IsStateful() ==> op.slot == slot)
    requires Decode(read, rest, if op.IsStateful() then slot + 1 else slot) == Some(ops)
    ensures Decode(read, [Opcode(op)] + Operand(write, op) + rest, slot) == Some([Cut(op)] + ops)
  {
    hide Opcode, Operand, DecodeOp, Cut, Survives;
    DecodeOne(write, read, op, rest, slot);
    CutSame(write, op);
  }

  /** The decoder inverts the encoder up to the cut: slots come back from the order alone. */
  lemma {:induction false} DecodeEncode(write: Writer, read: Reader, prog: seq<Op>, slot: nat)
    requires AllSurvive(write, read, prog) && SlotsFrom(prog, slot)
    ensures Decode(read, Encode(write, prog), slot) == Some(CutAll(prog))
    decreases |prog|
  {
    if prog == [] {
      assert CutAll(prog) == [];
    } else {
      var op, rest := prog[0], prog[1..];
      var next := if op.IsStateful() then slot + 1 else slot;
      assert Survives(write, read, op) && AllSurvive(write, read, rest) && SlotsFrom(rest, next);
      assert op.IsStateful() ==> op.slot == slot;
      hide *;
      assert prog == [op] + rest;
      EncodeCons(write, op, rest);
      DecodeEncode(write, read, rest, next);
      DecodeFirst(write, read, op, Encode(write, rest), CutAll(rest), slot);
      CutCons(op, rest);
    }
  }

  lemma {:induction false} CutCons(op: Op, prog: seq<Op>)
    ensures CutAll([op] + prog) == [Cut(op)] + CutAll(prog)
  {
    hide Cut;
  }

  lemma {:induction false} CutEncode(write: Writer, prog: seq<Op>)
    ensures Encode(write, CutAll(prog)) == Encode(write, prog)
  {
    if prog != [] {
      hide Opcode, Operand, Cut;
      var init, op := prog[..|prog| - 1], prog[|prog| - 1];
      CutEncode(write, init);
      CutSame(write, op);
      assert CutAll(prog)[..|prog| - 1] == CutAll(init);
    }
  }

  lemma {:induction false} CutExact(prog: seq<Op>)
    ensures CutAll(prog) == prog <==> SmallParams(prog)
  {
    if CutAll(prog) == prog {
      forall i | 0 <= i < |prog| && prog[i].IsStateful() ensures Param(prog[i]) < U16 {
        assert Cut(prog[i]) == prog[i];
      }
    }
  }

  /** Two programs have the same bytes exactly when they agree after the cut. */
  lemma {:induction false} SameBytesIff(write: Writer, read: Reader, p: seq<Op>, q: seq<Op>)
    requires SlotsFrom(p, 0) && SlotsFrom(q, 0) && AllSurvive(write, read, p) && AllSurvive(write, read, q)
    ensures Encode(write, p) == Encode(write, q) <==> CutAll(p) == CutAll(q)
  {
    DecodeEncode(write, read, p, 0);
    DecodeEncode(write, read, q, 0);
    CutEncode(write, p);
    CutEncode(write, q);
  }

  /** A compiled program comes back from its bytes exactly when every parameter is below 65536. */
  lemma {:induction false} CompiledRoundTripIff(write: Writer, read: Reader, spec: GraphSpec)
    requires Compiled(spec).Ok? && AllSurvive(write, read, Compiled(spec).value)
    ensures var prog := Compiled(spec).value;
      Decode(read, Encode(write, prog), 0) == Some(prog) <==> SmallParams(prog)
  {
    hide Compiled, SmallParams, CutAll, Encode, Decode, SlotsFrom;
    CompiledSlots(spec);
    DecodeEncode(write, read, Compiled(spec).value, 0);
    CutExact(Compiled(spec).value);
  }

  /** Compiled programs with small parameters and equal bytes are equal. */
  lemma {:induction false} CompiledBytesFaithful(write: Writer, read: Reader, a: GraphSpec, b: GraphSpec)
    requires Compiled(a).Ok? && AllSurvive(write, read, Compiled(a).value) && SmallParams(Compiled(a).value)
    requires Compiled(b).Ok? && AllSurvive(write, read, Compiled(b).value) && SmallParams(Compiled(b).value)
    ensures Encode(write, Compiled(a).value) == Encode(write, Compiled(b).value) ==> Compiled(a) == Compiled(b)
  {
    hide Compiled, SmallParams, Encode, Decode;
    CompiledRoundTripIff(write, read, a);
    CompiledRoundTripIff(write, read, b);
  }

  /** One tick after a step from zero to one, an average stands at its smoothing weight. */
  lemma {:induction false} StepReading(sqrt: SqrtFn, period: nat)
    ensures Exec(sqrt, [Ema(0, period)], RESET, [0.0, 1.0]).cells == [Alpha(period)]
  {
    assert [0.0, 1.0][..1] == [0.0];
    assert EmaOf(period, [0.0, 1.0]) == Alpha(period);
    hide EmaOf, Alpha;
    ExecOne(sqrt, Ema(0, period), RESET, [0.0, 1.0]);
  }

  lemma {:induction false} OneBytes(write: Writer, op: Op)
    ensures Encode(write, [op]) == [Opcode(op)] + Operand(write, op)
  {
    hide Opcode, Operand;
    assert [op][..0] == [];
    assert Encode(write, []) + [Opcode(op)] == [Opcode(op)];
  }

  lemma {:induction false} AlphasDiffer()
    ensures Alpha(1) != Alpha(65537)
  {
  }

  /** Past sixteen bits two programs with different readings share their bytes. */
  lemma {:induction false} LargeParamsCollide(write: Writer, sqrt: SqrtFn)
    ensures var p, q := [Ema(0, 1)], [Ema(0, 65537)];
      && Encode(write, p) == Encode(write, q)
      && Exec(sqrt, p, RESET, [0.0, 1.0]).cells != Exec(sqrt, q, RESET, [0.0, 1.0]).cells
  {
    hide Exec, ExecOp, Encode, Alpha;
    StepReading(sqrt, 1);
    StepReading(sqrt, 65537);
    OneBytes(write, Ema(0, 1));
    OneBytes(write, Ema(0, 65537));
    AlphasDiffer();
    assert [Alpha(1)][0] != [Alpha(65537)][0];
  }
}
