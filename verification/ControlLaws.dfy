/** What holds of the control automaton on every byte stream. */
module ControlLaws {
  import opened Primitives
  import opened Control

  // ----- Resynchronisation -----

  /** Brings the automaton back to ground from any state. */
  const RESET: seq<u8> := [BACKSLASH, ESC, BACKSLASH]

  lemma Run1(s: State, a: u8)
    ensures Run(s, [a]) == Step(s, a)
  {
  }

  lemma Run2(s: State, a: u8, b: u8)
    ensures Run(s, [a, b]) == Step(Step(s, a), b)
  {
    assert [a, b][1..] == [b];
    Run1(Step(s, a), b);
  }

  lemma Run3(s: State, a: u8, b: u8, c: u8)
    ensures Run(s, [a, b, c]) == Step(Step(Step(s, a), b), c)
  {
    assert [a, b, c][1..] == [b, c];
    Run2(Step(s, a), b, c);
  }

  /** No stream can trap the automaton: the word ends every state in ground, and it
      leaves the colour state alone. */
  lemma ResetReachesGround(s: State, before: seq<u8>)
    ensures Run(s, before + RESET).mode == Ground
    ensures Run(s, before + RESET).sgr == Run(s, before).sgr
  {
    RunAppend(s, before, RESET);
    Run3(Run(s, before), BACKSLASH, ESC, BACKSLASH);
  }

  /** The same parser state: mode, and inside a control sequence its parameters. */
  predicate SameParser(s: State, s': State) {
    s.mode == s'.mode && (s.mode == Csi ==> s.params == s'.params && s.cur == s'.cur)
  }

  /** The parser state after a stream, pending parameters included, depends only on what
      follows the reset word. */
  lemma ParserForgetsThePast(s: State, s': State, before: seq<u8>, before': seq<u8>, after: seq<u8>)
    ensures SameParser(Run(s, before + RESET + after), Run(s', before' + RESET + after))
  {
    ResetReachesGround(s, before);
    ResetReachesGround(s', before');
    RunAppend(s, before + RESET, after);
    RunAppend(s', before' + RESET, after);
    ParserIsItsOwnAutomaton(Run(s, before + RESET), Run(s', before' + RESET), after);
  }

  /** The parser moves by itself, whatever the colours and old parameters are. */
  lemma {:induction false} ParserIsItsOwnAutomaton(s: State, s': State, bytes: seq<u8>)
    requires SameParser(s, s')
    ensures SameParser(Run(s, bytes), Run(s', bytes))
    decreases |bytes|
  {
    if bytes != [] {
      ParserIsItsOwnAutomaton(Step(s, bytes[0]), Step(s', bytes[0]), bytes[1..]);
    }
  }

  ghost predicate Resets(word: seq<u8>) {
    forall s: State :: Run(s, word).mode == Ground
  }

  /** No shorter word does it. */
  lemma ResetIsShortest(word: seq<u8>)
    requires |word| < 3
    ensures !Resets(word)
  {
    var dcs := START.(mode := Dcs);
    var dcsEsc := START.(mode := DcsEsc);
    if |word| == 0 {
      assert Run(dcs, word).mode != Ground;
    } else if |word| == 1 {
      assert word == [word[0]];
      Run1(dcs, word[0]);
      assert Run(dcs, word).mode != Ground;
    } else {
      assert word == [word[0], word[1]];
      Run2(dcs, word[0], word[1]);
      Run2(dcsEsc, word[0], word[1]);
      assert Run(dcs, word).mode != Ground || Run(dcsEsc, word).mode != Ground;
    }
  }

  // ----- Control strings -----

  /** A piece of the body of a control string: a plain byte, or an escape with the
      byte it takes along. */
  datatype Piece = Plain(b: u8) | Pair(b: u8)

  /** What may stand inside an OSC (`bell`: BEL ends the string) or a DCS. */
  predicate Inside(p: Piece, bell: bool) {
    match p
    case Plain(b) => b != ESC && !(bell && b == BEL)
    case Pair(b) => b != BACKSLASH
  }

  function Spell(p: Piece): seq<u8> {
    match p
    case Plain(b) => [b]
    case Pair(b) => [ESC, b]
  }

  function SpellAll(ps: seq<Piece>): seq<u8> {
    if ps == [] then [] else Spell(ps[0]) + SpellAll(ps[1..])
  }

  predicate IsTerminator(t: seq<u8>, bell: bool) {
    t == [ESC, BACKSLASH] || (bell && t == [BEL])
  }

  function BodyMode(bell: bool): Mode {
    if bell then Osc else Dcs
  }

  function HalfMode(bell: bool): Mode {
    if bell then OscEsc else DcsEsc
  }

  /** The automaton is somewhere inside a control string. */
  predicate InString(s: State, bell: bool) {
    s.mode == BodyMode(bell) || s.mode == HalfMode(bell)
  }

  /** How a stream that starts inside a control string reads: as pieces followed by
      a terminator and the rest, or as pieces (and perhaps a lone escape) to the end. */
  datatype Reading =
    | Ended(pieces: seq<Piece>, terminator: seq<u8>, rest: seq<u8>)
    | Open(pieces: seq<Piece>, tail: seq<u8>)

  function Prepend(p: Piece, r: Reading): Reading {
    match r
    case Ended(ps, t, rest) => Ended([p] + ps, t, rest)
    case Open(ps, tail) => Open([p] + ps, tail)
  }

  function Read(bytes: seq<u8>, bell: bool): Reading
    decreases |bytes|
  {
    if bytes == [] then Open([], [])
    else if bell && bytes[0] == BEL then Ended([], [BEL], bytes[1..])
    else if bytes[0] != ESC then Prepend(Plain(bytes[0]), Read(bytes[1..], bell))
    else if |bytes| == 1 then Open([], [ESC])
    else if bytes[1] == BACKSLASH then Ended([], [ESC, BACKSLASH], bytes[2..])
    else Prepend(Pair(bytes[1]), Read(bytes[2..], bell))
  }

  function Unread(r: Reading): seq<u8> {
    match r
    case Ended(ps, t, rest) => SpellAll(ps) + t + rest
    case Open(ps, tail) => SpellAll(ps) + tail
  }

  predicate WellRead(r: Reading, bell: bool) {
    && (forall i :: 0 <= i < |r.pieces| ==> Inside(r.pieces[i], bell))
    && (r.Ended? ==> IsTerminator(r.terminator, bell))
    && (r.Open? ==> r.tail == [] || r.tail == [ESC])
  }

  /** Every stream has a reading in the grammar. */
  lemma {:induction false} ReadIsWell(bytes: seq<u8>, bell: bool)
    ensures WellRead(Read(bytes, bell), bell)
    decreases |bytes|
  {
    if bytes != [] && !(bell && bytes[0] == BEL) {
      if bytes[0] != ESC {
        ReadIsWell(bytes[1..], bell);
      } else if |bytes| > 1 && bytes[1] != BACKSLASH {
        ReadIsWell(bytes[2..], bell);
      }
    }
  }

  /** The reading of a stream spells that stream. */
  lemma {:induction false} ReadSpells(bytes: seq<u8>, bell: bool)
    ensures Unread(Read(bytes, bell)) == bytes
    decreases |bytes|
  {
    if bytes != [] && !(bell && bytes[0] == BEL) {
      if bytes[0] != ESC {
        ReadSpells(bytes[1..], bell);
        PrependSpells(Plain(bytes[0]), Read(bytes[1..], bell));
      } else if |bytes| > 1 && bytes[1] != BACKSLASH {
        ReadSpells(bytes[2..], bell);
        PrependSpells(Pair(bytes[1]), Read(bytes[2..], bell));
      }
    }
  }

  lemma PrependSpells(p: Piece, r: Reading)
    ensures Unread(Prepend(p, r)) == Spell(p) + Unread(r)
  {
  }

  /** The grammar is unambiguous: any reading of a stream is the one `Read` finds. */
  lemma {:induction false} ReadingIsUnique(r: Reading, bell: bool)
    requires WellRead(r, bell)
    ensures Read(Unread(r), bell) == r
    decreases |r.pieces|
  {
    if r.pieces == [] {
      ReadingWithoutPieces(r, bell);
    } else {
      var p := r.pieces[0];
      var r' := r.(pieces := r.pieces[1..]);
      ReadingIsUnique(r', bell);
      assert r == Prepend(p, r');
      PrependSpells(p, r');
      ReadPrepend(p, Unread(r'), bell);
    }
  }

  lemma ReadingWithoutPieces(r: Reading, bell: bool)
    requires WellRead(r, bell) && r.pieces == []
    ensures Read(Unread(r), bell) == r
  {
    if r.Ended? {
      assert Unread(r) == r.terminator + r.rest;
      ReadTerminator(r.terminator, r.rest, bell);
    } else {
      assert Unread(r) == r.tail;
    }
  }

  lemma ReadTerminator(t: seq<u8>, rest: seq<u8>, bell: bool)
    requires IsTerminator(t, bell)
    ensures Read(t + rest, bell) == Ended([], t, rest)
  {
  }

  lemma ReadPrepend(p: Piece, bytes: seq<u8>, bell: bool)
    requires Inside(p, bell)
    ensures Read(Spell(p) + bytes, bell) == Prepend(p, Read(bytes, bell))
  {
  }

  /** Pieces are swallowed: nothing but the mode moves, and it comes back. */
  lemma {:induction false} PiecesAreSwallowed(s: State, ps: seq<Piece>, bell: bool)
    requires s.mode == BodyMode(bell)
    requires forall i :: 0 <= i < |ps| ==> Inside(ps[i], bell)
    ensures Run(s, SpellAll(ps)) == s
    decreases |ps|
  {
    if ps != [] {
      match ps[0] {
        case Plain(b) => Run1(s, b);
        case Pair(b) => Run2(s, ESC, b);
      }
      RunAppend(s, Spell(ps[0]), SpellAll(ps[1..]));
      PiecesAreSwallowed(s, ps[1..], bell);
    }
  }

  /** Inside a string no byte requests an action or touches parameters or colours. */
  lemma InStringIsQuiet(s: State, b: u8, bell: bool)
    requires InString(s, bell)
    ensures ActionOf(s, b) == Nothing
    ensures Step(s, b) == s.(mode := Step(s, b).mode)
    ensures InString(Step(s, b), bell) || Step(s, b).mode == Ground
  {
  }

  /** The terminator ends the string. */
  lemma TerminatorEnds(s: State, t: seq<u8>, bell: bool)
    requires s.mode == BodyMode(bell) && IsTerminator(t, bell)
    ensures Run(s, t) == s.(mode := Ground)
  {
    if t == [BEL] {
      Run1(s, BEL);
    } else {
      Run2(s, ESC, BACKSLASH);
    }
  }

  lemma EndedRun(s: State, r: Reading, bell: bool)
    requires s.mode == BodyMode(bell) && r.Ended? && WellRead(r, bell)
    ensures Run(s, SpellAll(r.pieces) + r.terminator) == s.(mode := Ground)
    ensures Run(s, Unread(r)) == Run(s.(mode := Ground), r.rest)
  {
    PiecesAreSwallowed(s, r.pieces, bell);
    TerminatorEnds(s, r.terminator, bell);
    RunAppend(s, SpellAll(r.pieces), r.terminator);
    RunAppend(s, SpellAll(r.pieces) + r.terminator, r.rest);
  }

  lemma OpenRun(s: State, r: Reading, bell: bool)
    requires s.mode == BodyMode(bell) && r.Open? && WellRead(r, bell)
    ensures Run(s, Unread(r)) == s.(mode := if r.tail == [] then BodyMode(bell) else HalfMode(bell))
  {
    PiecesAreSwallowed(s, r.pieces, bell);
    if r.tail != [] {
      Run1(s, ESC);
    }
    RunAppend(s, SpellAll(r.pieces), r.tail);
  }

  /** The automaton follows the reading: an ended string reaches ground state at its
      terminator, an open one is still inside. */
  lemma StringRun(s: State, bytes: seq<u8>, bell: bool)
    requires s.mode == BodyMode(bell)
    ensures var r := Read(bytes, bell);
      && (r.Ended? ==>
            && Run(s, SpellAll(r.pieces) + r.terminator) == s.(mode := Ground)
            && Run(s, bytes) == Run(s.(mode := Ground), r.rest))
      && (r.Open? ==>
            Run(s, bytes) == s.(mode := if r.tail == [] then BodyMode(bell) else HalfMode(bell)))
  {
    ReadIsWell(bytes, bell);
    ReadSpells(bytes, bell);
    var r := Read(bytes, bell);
    if r.Ended? {
      EndedRun(s, r, bell);
    } else {
      OpenRun(s, r, bell);
    }
  }

  /** While every shorter prefix is inside the string, nothing but the mode has
      moved and nothing has been requested. */
  lemma {:induction false} QuietWhileInside(s: State, bytes: seq<u8>, n: nat, bell: bool)
    requires InString(s, bell) && n <= |bytes|
    requires forall m :: 0 <= m < n ==> InString(Run(s, bytes[..m]), bell)
    ensures Run(s, bytes[..n]) == s.(mode := Run(s, bytes[..n]).mode)
    ensures forall i :: 0 <= i < n ==> Actions(s, bytes[..n])[i] == Nothing
    decreases n
  {
    if n > 0 {
      var head, last := bytes[..n - 1], bytes[n - 1];
      QuietWhileInside(s, bytes, n - 1, bell);
      assert bytes[..n] == head + [last];
      RunAppend(s, head, [last]);
      Run1(Run(s, head), last);
      InStringIsQuiet(Run(s, head), last, bell);
      assert Actions(Run(s, head), [last]) == [ActionOf(Run(s, head), last)];
    }
  }

  /** The number of bytes up to and including the terminator. */
  function Extent(r: Reading): nat
    requires r.Ended?
  {
    |SpellAll(r.pieces)| + |r.terminator|
  }

  /** No proper prefix of the pieces and terminator has left the string. */
  lemma {:induction false} InsideUntilEnd(s: State, bytes: seq<u8>, m: nat, bell: bool)
    requires s.mode == BodyMode(bell) && m <= |bytes|
    requires Read(bytes, bell).Ended? ==> m < Extent(Read(bytes, bell))
    ensures InString(Run(s, bytes[..m]), bell)
    decreases |bytes|
  {
    if m == 0 {
      assert bytes[..m] == [];
    } else if m == 1 {
      assert bytes[..m] == [bytes[0]];
      Run1(s, bytes[0]);
    } else {
      var p := if bytes[0] != ESC then Plain(bytes[0]) else Pair(bytes[1]);
      var k := |Spell(p)|;
      var rest := bytes[k..];
      ReadPrepend(p, rest, bell);
      assert bytes == Spell(p) + rest;
      assert ([p] + Read(rest, bell).pieces)[1..] == Read(rest, bell).pieces;
      InsideUntilEnd(s, rest, m - k, bell);
      assert bytes[..m] == Spell(p) + rest[..m - k];
      RunAppend(s, Spell(p), rest[..m - k]);
      PiecesAreSwallowed(s, [p], bell);
      assert SpellAll([p]) == Spell(p);
    }
  }

  /** A control string is swallowed exactly: with `n` bytes up to and including its
      terminator (all of them, if it has none), ground state is reached at byte `n`
      and not before, and the first `n` bytes move nothing but the mode and request
      nothing. */
  lemma StringIsSwallowedExactly(s: State, bytes: seq<u8>, bell: bool)
    requires s.mode == BodyMode(bell)
    ensures var r := Read(bytes, bell); var n := if r.Ended? then Extent(r) else |bytes|;
      && n <= |bytes|
      && (forall m :: 0 <= m <= n ==> (Run(s, bytes[..m]).mode == Ground <==> r.Ended? && m == n))
      && Run(s, bytes[..n]) == s.(mode := Run(s, bytes[..n]).mode)
      && (forall i :: 0 <= i < n ==> Actions(s, bytes)[i] == Nothing)
  {
    var r := Read(bytes, bell);
    ReadIsWell(bytes, bell);
    ReadSpells(bytes, bell);
    StringRun(s, bytes, bell);
    var n := if r.Ended? then Extent(r) else |bytes|;
    forall m | 0 <= m <= n && !(r.Ended? && m == n)
      ensures InString(Run(s, bytes[..m]), bell)
    {
      InsideUntilEnd(s, bytes, m, bell);
    }
    QuietWhileInside(s, bytes, n, bell);
    if r.Ended? {
      assert bytes[..n] == SpellAll(r.pieces) + r.terminator;
    }
    assert bytes == bytes[..n] + bytes[n..];
    RunAppend(s, bytes[..n], bytes[n..]);
  }

  // ----- Where a control string ends -----

  /** How many ESC stand right before position `n`. */
  function EscapesBefore(bytes: seq<u8>, n: nat): nat
    requires n <= |bytes|
  {
    if n == 0 || bytes[n - 1] != 0x1b then 0 else EscapesBefore(bytes, n - 1) + 1
  }

  /** A backslash after an odd number of ESC, or, if it counts, BEL after an even one. */
  predicate Closes(bytes: seq<u8>, n: nat, bell: bool)
    requires n < |bytes|
  {
    if EscapesBefore(bytes, n) % 2 == 1 then bytes[n] == 0x5c else bell && bytes[n] == 0x07
  }

  predicate NoneCloses(bytes: seq<u8>, n: nat, bell: bool)
    requires n <= |bytes|
  {
    forall m :: 0 <= m < n ==> !Closes(bytes, m, bell)
  }

  lemma RunOneMore(s: State, bytes: seq<u8>, n: nat)
    requires n < |bytes|
    ensures Run(s, bytes[..n + 1]) == Step(Run(s, bytes[..n]), bytes[n])
  {
    assert bytes[..n + 1] == bytes[..n] + [bytes[n]];
    RunAppend(s, bytes[..n], [bytes[n]]);
    Run1(Run(s, bytes[..n]), bytes[n]);
  }

  /** Before the first such byte the mode is the parity of the ESC just read. */
  lemma {:induction false} ModeIsParity(s: State, bytes: seq<u8>, n: nat, bell: bool)
    requires s.mode == BodyMode(bell) && n <= |bytes| && NoneCloses(bytes, n, bell)
    ensures Run(s, bytes[..n]).mode ==
      if EscapesBefore(bytes, n) % 2 == 1 then HalfMode(bell) else BodyMode(bell)
    decreases n
  {
    if n == 0 {
      assert bytes[..n] == [];
    } else {
      assert !Closes(bytes, n - 1, bell);
      ModeIsParity(s, bytes, n - 1, bell);
      RunOneMore(s, bytes, n - 1);
    }
  }

  /** If none closes before it, a byte leads to ground state exactly if it closes. */
  lemma FirstGround(s: State, bytes: seq<u8>, n: nat, bell: bool)
    requires s.mode == BodyMode(bell) && n < |bytes| && NoneCloses(bytes, n, bell)
    ensures Run(s, bytes[..n + 1]).mode == Ground <==> Closes(bytes, n, bell)
  {
    ModeIsParity(s, bytes, n, bell);
    RunOneMore(s, bytes, n);
  }

  lemma {:induction false} InsideMeansUnclosed(s: State, bytes: seq<u8>, n: nat, bell: bool)
    requires s.mode == BodyMode(bell) && n <= |bytes|
    requires forall m :: 0 <= m <= n ==> Run(s, bytes[..m]).mode != Ground
    ensures NoneCloses(bytes, n, bell)
    decreases n
  {
    if n > 0 {
      InsideMeansUnclosed(s, bytes, n - 1, bell);
      FirstGround(s, bytes, n - 1, bell);
    }
  }

  /** A control string ends, if at all, where its sender can tell: at the first byte
      that closes. So ESC ESC `\` does not end it. */
  lemma StringEndsExactlyAt(bytes: seq<u8>, n: nat, bell: bool)
    requires n < |bytes|
    ensures var r := Read(bytes, bell);
      r.Ended? && Extent(r) == n + 1 <==> Closes(bytes, n, bell) && NoneCloses(bytes, n, bell)
  {
    var r, s := Read(bytes, bell), START.(mode := BodyMode(bell));
    StringIsSwallowedExactly(s, bytes, bell);
    if Closes(bytes, n, bell) && NoneCloses(bytes, n, bell) {
      FirstGround(s, bytes, n, bell);
      if r.Ended? && Extent(r) <= n {
        ModeIsParity(s, bytes, Extent(r), bell);
      }
    } else if r.Ended? && Extent(r) == n + 1 {
      InsideMeansUnclosed(s, bytes, n, bell);
      FirstGround(s, bytes, n, bell);
    }
  }

  // ----- Parameters are dead outside a control sequence -----

  /** Equal but for parameters that no byte can read any more. */
  predicate Alike(s: State, t: State) {
    s.mode == t.mode && s.sgr == t.sgr && (s.mode == Csi ==> s == t)
  }

  lemma {:induction false} AlikeForever(s: State, t: State, bytes: seq<u8>)
    requires Alike(s, t)
    ensures Alike(Run(s, bytes), Run(t, bytes))
    ensures Actions(s, bytes) == Actions(t, bytes)
    decreases |bytes|
  {
    if bytes != [] {
      AlikeForever(Step(s, bytes[0]), Step(t, bytes[0]), bytes[1..]);
    }
  }
}
