/** The escape-sequence automaton. It reads bytes and never sees the screen:
    each byte moves the control state and requests at most one screen action. */
module Control {
  import opened Primitives
  import opened SgrState

  const BEL: u8 := 0x07
  const BS: u8 := 0x08
  const TAB: u8 := 0x09
  const LF: u8 := 0x0a
  const CR: u8 := 0x0d
  const ESC: u8 := 0x1b
  const SPACE: u8 := 0x20
  const DEL: u8 := 0x7f
  const BACKSLASH: u8 := 0x5c

  const WRAP: nat := 0x1_0000_0000

  datatype Cell = Cell(ch: u8, fg: Option<u8>, bg: Option<u8>)

  const BLANK := Cell(SPACE, None, None)

  datatype Mode = Ground | Escape | Csi | Osc | OscEsc | Dcs | DcsEsc | Charset

  datatype State = State(mode: Mode, params: seq<u32>, cur: Option<u32>, sgr: Sgr)

  datatype Action =
    | Nothing
    | Print(cell: Cell)
    | LineFeed
    | CarriageReturn
    | Tabulate(cell: Cell)
    | Backspace
    | EraseLine(kind: u32)
    | EraseDisplay(kind: u32)
    | Forward(n: u32)
    | Backward(n: u32)
    | Column(n: u32)
    | Position(row: u32, col: u32)

  const START := State(Ground, [], None, PLAIN)

  predicate IsPrintable(b: u8) {
    0x20 <= b <= 0x7e
  }

  predicate IsDigit(b: u8) {
    0x30 <= b <= 0x39
  }

  predicate IsFinal(b: u8) {
    0x40 <= b <= 0x7e
  }

  predicate CellOk(c: Cell) {
    IsPrintable(c.ch) && IndexOk(c.fg) && IndexOk(c.bg)
  }

  /** `c | 8`: the bright variant of a colour. */
  function Bright(c: u8): u8 {
    if (c / 8) % 2 == 0 then c + 8 else c
  }

  /** The cell that printing `ch` produces in colour state `s`. */
  function Inked(ch: u8, s: Sgr): Cell {
    var fg := if s.bold && s.fg.Some? then Some(Bright(s.fg.value)) else s.fg;
    Cell(ch, fg, s.bg)
  }

  /** A parameter by index; absent and zero both mean the default. */
  function Param(ps: seq<u32>, i: nat, default: u32): u32 {
    if i < |ps| && ps[i] != 0 then ps[i] else default
  }

  /** One decimal digit appended to a 32-bit accumulator, wrapping around. */
  function Accumulate(cur: Option<u32>, digit: nat): u32 {
    ((if cur.Some? then cur.value else 0) * 10 + digit) % WRAP
  }

  /** The parameter list once a final byte has arrived: a pending value is
      pushed, an empty last parameter is not. */
  function Completed(s: State): seq<u32> {
    if s.cur.Some? then s.params + [s.cur.value] else s.params
  }

  function CsiAction(ps: seq<u32>, final: u8): Action {
    if final == 'K' as int then EraseLine(Param(ps, 0, 0))
    else if final == 'J' as int then EraseDisplay(Param(ps, 0, 0))
    else if final == 'C' as int then Forward(Param(ps, 0, 1))
    else if final == 'D' as int then Backward(Param(ps, 0, 1))
    else if final == 'G' as int then Column(Param(ps, 0, 1))
    else if final == 'H' as int || final == 'f' as int then Position(Param(ps, 0, 1), Param(ps, 1, 1))
    else Nothing
  }

  function GroundAction(s: Sgr, b: u8): Action {
    if b == LF then LineFeed
    else if b == CR then CarriageReturn
    else if b == TAB then Tabulate(Inked(SPACE, s))
    else if b == BS || b == DEL then Backspace
    else if IsPrintable(b) then Print(Inked(b, s))
    else Nothing
  }

  /** The screen action that byte `b` requests in state `s`. */
  function ActionOf(s: State, b: u8): Action {
    match s.mode
    case Ground => GroundAction(s.sgr, b)
    case Csi => if IsFinal(b) then CsiAction(Completed(s), b) else Nothing
    case _ => Nothing
  }

  function StepEscape(s: State, b: u8): State {
    if b == '[' as int then s.(mode := Csi, params := [], cur := None)
    else if b == ']' as int then s.(mode := Osc)
    else if b == 'P' as int then s.(mode := Dcs)
    else if b == '(' as int || b == ')' as int || b == '*' as int || b == '+' as int then s.(mode := Charset)
    else s.(mode := Ground)
  }

  function StepCsi(s: State, b: u8): State {
    if IsDigit(b) then s.(cur := Some(Accumulate(s.cur, b - 0x30)))
    else if b == ';' as int then
      s.(params := s.params + [if s.cur.Some? then s.cur.value else 0], cur := None)
    else if IsFinal(b) then
      var ps := Completed(s);
      State(Ground, ps, None, if b == 'm' as int then Apply(ps, s.sgr) else s.sgr)
    else s
  }

  /** The control state after byte `b`. */
  function Step(s: State, b: u8): State {
    match s.mode
    case Ground => if b == ESC then s.(mode := Escape) else s
    case Escape => StepEscape(s, b)
    case Csi => StepCsi(s, b)
    case Osc =>
      if b == BEL then s.(mode := Ground)
      else if b == ESC then s.(mode := OscEsc)
      else s
    case OscEsc => s.(mode := if b == BACKSLASH then Ground else Osc)
    case Dcs => if b == ESC then s.(mode := DcsEsc) else s
    case DcsEsc => s.(mode := if b == BACKSLASH then Ground else Dcs)
    case Charset => s.(mode := Ground)
  }

  function Run(s: State, bytes: seq<u8>): State
    decreases |bytes|
  {
    if bytes == [] then s else Run(Step(s, bytes[0]), bytes[1..])
  }

  /** The screen actions a byte stream requests, one per byte. */
  function Actions(s: State, bytes: seq<u8>): (acts: seq<Action>)
    ensures |acts| == |bytes|
    decreases |bytes|
  {
    if bytes == [] then [] else [ActionOf(s, bytes[0])] + Actions(Step(s, bytes[0]), bytes[1..])
  }

  lemma {:induction false} RunAppend(s: State, a: seq<u8>, b: seq<u8>)
    ensures Run(s, a + b) == Run(Run(s, a), b)
    ensures Actions(s, a + b) == Actions(s, a) + Actions(Run(s, a), b)
    decreases |a|
  {
    if a == [] {
      assert a + b == b;
    } else {
      assert (a + b)[1..] == a[1..] + b;
      RunAppend(Step(s, a[0]), a[1..], b);
    }
  }

  predicate ActionOk(a: Action) {
    (a.Print? || a.Tabulate?) ==> CellOk(a.cell)
  }

  lemma InkedOk(ch: u8, s: Sgr)
    requires SgrOk(s) && IsPrintable(ch)
    ensures CellOk(Inked(ch, s))
  {
  }

  /** Requested cells are printable and use palette indices only. */
  lemma StepKeepsIndices(s: State, b: u8)
    requires SgrOk(s.sgr)
    ensures SgrOk(Step(s, b).sgr)
    ensures ActionOk(ActionOf(s, b))
  {
    if s.mode == Ground && IsPrintable(b) {
      InkedOk(b, s.sgr);
    }
    InkedOk(SPACE, s.sgr);
    assert SgrOk(StepCsi(s, b).sgr) by {
      ApplyKeepsIndices(Completed(s), s.sgr);
    }
  }
}
