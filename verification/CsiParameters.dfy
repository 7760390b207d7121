/** How the bytes of a control sequence become its parameter list. */
module CsiParameters {
  import opened Primitives
  import opened SgrState
  import opened Control
  import opened ControlLaws

  const SEMICOLON: u8 := 0x3b
  const BRACKET: u8 := 0x5b

  predicate AllDigits(ds: seq<u8>) {
    forall i :: 0 <= i < |ds| ==> IsDigit(ds[i])
  }

  predicate AllFieldsDigits(fs: seq<seq<u8>>) {
    forall i :: 0 <= i < |fs| ==> AllDigits(fs[i])
  }

  predicate NoFinal(w: seq<u8>) {
    forall i :: 0 <= i < |w| ==> !IsFinal(w[i])
  }

  function Init<T>(xs: seq<T>): seq<T>
    requires xs != []
  {
    xs[..|xs| - 1]
  }

  function Last<T>(xs: seq<T>): T
    requires xs != []
  {
    xs[|xs| - 1]
  }

  /** The bytes that matter: digits and semicolons. */
  function Significant(w: seq<u8>): seq<u8> {
    if w == [] then []
    else if IsDigit(Last(w)) || Last(w) == SEMICOLON then Significant(Init(w)) + [Last(w)]
    else Significant(Init(w))
  }

  /** The digit strings between the semicolons. */
  function Fields(w: seq<u8>): (fs: seq<seq<u8>>)
    ensures fs != [] && AllFieldsDigits(fs)
  {
    if w == [] then [[]]
    else
      var fs := Fields(Init(w));
      var b := Last(w);
      if b == SEMICOLON then fs + [[]]
      else if IsDigit(b) then Init(fs) + [Last(fs) + [b]]
      else fs
  }

  function Join(fs: seq<seq<u8>>): seq<u8>
    requires fs != []
  {
    if |fs| == 1 then fs[0] else Join(Init(fs)) + [SEMICOLON] + Last(fs)
  }

  /** The fields joined by semicolons are the bytes that matter. */
  lemma {:induction false} JoinOfFields(w: seq<u8>)
    ensures Join(Fields(w)) == Significant(w)
  {
    if w != [] {
      JoinOfFields(Init(w));
      var fs, b := Fields(Init(w)), Last(w);
      if b == SEMICOLON {
        assert Init(fs + [[]]) == fs;
        assert Join(fs + [[]]) == Join(fs) + [SEMICOLON] + [];
      } else if IsDigit(b) {
        JoinExtends(fs, b);
      }
    }
  }

  lemma JoinExtends(fs: seq<seq<u8>>, b: u8)
    requires fs != []
    ensures Join(Init(fs) + [Last(fs) + [b]]) == Join(fs) + [b]
  {
  }

  lemma InitAndLast<T>(xs: seq<T>)
    requires xs != []
    ensures Init(xs) + [Last(xs)] == xs
  {
  }

  lemma FieldsAfterDigit(w: seq<u8>, d: u8)
    requires IsDigit(d)
    ensures Fields(w + [d]) == Init(Fields(w)) + [Last(Fields(w)) + [d]]
  {
    assert Init(w + [d]) == w;
  }

  lemma FieldsAfterSemicolon(w: seq<u8>)
    ensures Fields(w + [SEMICOLON]) == Fields(w) + [[]]
  {
    assert Init(w + [SEMICOLON]) == w;
  }

  /** Extending the last field by `ds` and then by `d` is extending it by both. */
  lemma ExtendLast(fs: seq<seq<u8>>, ds: seq<u8>, d: u8)
    requires fs != []
    ensures var gs := Init(fs) + [Last(fs) + ds];
      Init(gs) + [Last(gs) + [d]] == Init(fs) + [Last(fs) + (ds + [d])]
  {
    var gs := Init(fs) + [Last(fs) + ds];
    assert Init(gs) == Init(fs);
    assert Last(gs) + [d] == Last(fs) + (ds + [d]);
  }

  lemma {:induction false} FieldsAppendDigits(w: seq<u8>, ds: seq<u8>)
    requires AllDigits(ds)
    ensures Fields(w + ds) == Init(Fields(w)) + [Last(Fields(w)) + ds]
    decreases |ds|
  {
    if ds == [] {
      assert w + ds == w && Last(Fields(w)) + ds == Last(Fields(w));
      InitAndLast(Fields(w));
    } else {
      var head, d := Init(ds), Last(ds);
      InitAndLast(ds);
      FieldsAppendDigits(w, head);
      FieldsAfterDigit(w + head, d);
      assert w + head + [d] == w + ds;
      ExtendLast(Fields(w), head, d);
    }
  }

  /** The other way round: fields are recovered from the string that joins them. */
  lemma {:induction false} FieldsOfJoin(fs: seq<seq<u8>>)
    requires fs != [] && AllFieldsDigits(fs)
    ensures Fields(Join(fs)) == fs
    decreases |fs|
  {
    if |fs| == 1 {
      FieldsAppendDigits([], fs[0]);
      assert [] + fs[0] == fs[0];
      assert Fields([]) == [[]];
    } else {
      var head := Init(fs);
      FieldsOfJoin(head);
      FieldsAfterSemicolon(Join(head));
      FieldsAppendDigits(Join(head) + [SEMICOLON], Last(fs));
      LastOfMany(head, Last(fs));
      InitAndLast(fs);
    }
  }

  lemma LastOfMany(head: seq<seq<u8>>, last: seq<u8>)
    ensures var gs := head + [[]]; Init(gs) + [Last(gs) + last] == head + [last]
  {
    assert Init(head + [[]]) == head;
    assert [] + last == last;
  }

  function Value(ds: seq<u8>): nat
    requires AllDigits(ds)
  {
    if ds == [] then 0 else Value(Init(ds)) * 10 + (Last(ds) - 0x30)
  }

  function Numbers(fs: seq<seq<u8>>): (ns: seq<u32>)
    requires AllFieldsDigits(fs)
    ensures |ns| == |fs|
  {
    seq(|fs|, i requires 0 <= i < |fs| => Value(fs[i]) % 0x1_0000_0000)
  }

  /** The parameters that the bytes `w` stand for: the decimal value of each field
      modulo 2^32, where an empty last field does not count. */
  function Parameters(w: seq<u8>): seq<u32> {
    var fs := Fields(w);
    if Last(fs) == [] then Numbers(Init(fs)) else Numbers(fs)
  }

  lemma WrapStep(v: nat, d: nat)
    ensures ((v % WRAP) * 10 + d) % WRAP == (v * 10 + d) % WRAP
  {
    var q, m := v / WRAP, v % WRAP;
    assert v * 10 + d == (q * 10) * WRAP + (m * 10 + d);
    ModAdd(m * 10 + d, q * 10);
  }

  lemma ModAdd(a: nat, k: nat)
    ensures (k * WRAP + a) % WRAP == a % WRAP
  {
  }

  /** The automaton part-way through the parameter bytes. */
  lemma {:induction false} Collecting(s: State, w: seq<u8>)
    requires s.mode == Csi && s.params == [] && s.cur == None
    requires NoFinal(w)
    ensures var fs := Fields(w);
      Run(s, w) == s.(params := Numbers(Init(fs)),
                      cur := if Last(fs) == [] then None else Some(Value(Last(fs)) % WRAP))
    ensures forall i :: 0 <= i < |w| ==> Actions(s, w)[i] == Nothing
  {
    if w == [] {
      assert Numbers(Init([[]])) == [];
    } else {
      Collecting(s, Init(w));
      var fs, b := Fields(Init(w)), Last(w);
      assert w == Init(w) + [b];
      RunAppend(s, Init(w), [b]);
      var m := Run(s, Init(w));
      Run1(m, b);
      assert Actions(m, [b]) == [ActionOf(m, b)];
      CollectOne(m, fs, b);
    }
  }

  lemma CollectOne(m: State, fs: seq<seq<u8>>, b: u8)
    requires fs != [] && AllFieldsDigits(fs) && !IsFinal(b)
    requires m.mode == Csi && m.params == Numbers(Init(fs))
    requires m.cur == if Last(fs) == [] then None else Some(Value(Last(fs)) % WRAP)
    ensures ActionOf(m, b) == Nothing
    ensures b == SEMICOLON ==> Step(m, b) == m.(params := Numbers(Init(fs + [[]])), cur := None)
    ensures IsDigit(b) ==>
      var gs := Init(fs) + [Last(fs) + [b]];
      AllFieldsDigits(gs) && Step(m, b) == m.(params := Numbers(Init(gs)), cur := Some(Value(Last(gs)) % WRAP))
    ensures b != SEMICOLON && !IsDigit(b) ==> Step(m, b) == m
  {
    if b == SEMICOLON {
      assert Init(fs + [[]]) == fs;
      assert Numbers(fs) == Numbers(Init(fs)) + [Value(Last(fs)) % WRAP];
    } else if IsDigit(b) {
      var gs := Init(fs) + [Last(fs) + [b]];
      assert Init(gs) == Init(fs);
      assert Init(Last(fs) + [b]) == Last(fs);
      WrapStep(Value(Last(fs)), b - 0x30);
    }
  }

  function CsiBytes(w: seq<u8>, final: u8): seq<u8> {
    [0x1b, 0x5b] + w + [final]
  }

  /** The state after a whole control sequence. */
  function AfterCsi(s: State, ps: seq<u32>, final: u8): State {
    State(Ground, ps, None, if final == 'm' as int then Apply(ps, s.sgr) else s.sgr)
  }

  /** A control sequence with any parameter bytes: the automaton ends in ground state
      with exactly the parameters they stand for, and requests the one action that
      the final byte names. */
  lemma ControlSequence(s: State, w: seq<u8>, final: u8)
    requires s.mode == Ground && NoFinal(w) && IsFinal(final)
    ensures Run(s, CsiBytes(w, final)) == AfterCsi(s, Parameters(w), final)
    ensures var acts := Actions(s, CsiBytes(w, final));
      && acts[|acts| - 1] == CsiAction(Parameters(w), final)
      && (forall i :: 0 <= i < |acts| - 1 ==> acts[i] == Nothing)
  {
    var c := s.(mode := Csi, params := [], cur := None);
    Run2(s, ESC, BRACKET);
    assert Run(s, [ESC, BRACKET]) == c;
    assert Actions(s, [ESC, BRACKET]) == [Nothing, Nothing] by {
      assert [ESC, BRACKET][1..] == [BRACKET] && [BRACKET][1..] == [];
      assert Actions(Step(s, ESC), [BRACKET]) == [Nothing];
    }
    Collecting(c, w);
    var d := Run(c, w);
    assert Completed(d) == Parameters(w) by {
      var fs := Fields(w);
      assert Numbers(fs) == Numbers(Init(fs)) + [Value(Last(fs)) % WRAP];
    }
    Run1(d, final);
    assert Actions(d, [final]) == [ActionOf(d, final)];
    RunAppend(s, [ESC, BRACKET], w);
    RunAppend(s, [ESC, BRACKET] + w, [final]);
  }

  // ----- A last parameter of zero -----

  /** The empty last parameter that is dropped stands for zero. No screen action sees
      the difference, whatever the final byte. */
  lemma TrailingZeroActsAlike(ps: seq<u32>, final: u8)
    ensures CsiAction(ps + [0], final) == CsiAction(ps, final)
  {
    assert Param(ps + [0], 0, 0) == Param(ps, 0, 0);
    assert Param(ps + [0], 0, 1) == Param(ps, 0, 1);
    assert Param(ps + [0], 1, 1) == Param(ps, 1, 1);
  }

  /** So unless the final byte is `m` the states after both are alike. */
  lemma TrailingZeroShowsOnlyInSgr(s: State, ps: seq<u32>, final: u8)
    requires final != 'm' as int
    ensures Alike(AfterCsi(s, ps + [0], final), AfterCsi(s, ps, final))
  {
  }

  /** There it shows: `ESC[1;m` leaves bold on and `ESC[1;0m` off, from any state. */
  lemma TrailingZeroShowsInSgr(s: State)
    requires s.mode == Ground
    ensures Run(s, CsiBytes([0x31, 0x3b], 0x6d)).sgr.bold
    ensures !Run(s, CsiBytes([0x31, 0x3b, 0x30], 0x6d)).sgr.bold
  {
    OneAndEmpty();
    ControlSequence(s, [0x31, SEMICOLON], 'm' as int);
    ControlSequence(s, [0x31, SEMICOLON, 0x30], 'm' as int);
    BoldThenReset(s.sgr);
  }

  lemma OneAndEmpty()
    ensures Parameters([0x31, SEMICOLON]) == [1]
    ensures Parameters([0x31, SEMICOLON, 0x30]) == [1, 0]
  {
    FieldsAfterDigit([], 0x31);
    assert [] + [0x31] == [0x31];
    assert [0x31] + [SEMICOLON] == [0x31, SEMICOLON];
    FieldsAfterSemicolon([0x31]);
    FieldsAfterDigit([0x31, SEMICOLON], 0x30);
    assert [0x31, SEMICOLON] + [0x30] == [0x31, SEMICOLON, 0x30];
    assert Fields([]) == [[]];
    assert Fields([0x31]) == [[0x31]];
    assert Fields([0x31, SEMICOLON]) == [[0x31], []];
    LastOfMany([[0x31]], [0x30]);
    assert Fields([0x31, SEMICOLON, 0x30]) == [[0x31], [0x30]];
    assert Value([0x31]) == 1 && Value([0x30]) == 0;
  }

  lemma BoldThenReset(s: Sgr)
    ensures Apply([1], s).bold && !Apply([1, 0], s).bold
  {
    assert [1][1..] == [] && [1, 0][1..] == [0] && [0][1..] == [];
  }

  // ----- Decimal round trip -----

  function Decimal(n: nat): (ds: seq<u8>)
    ensures ds != [] && AllDigits(ds)
    ensures Value(ds) == n
  {
    if n < 10 then
      assert Init([0x30 + n]) == [];
      [0x30 + n]
    else
      var ds := Decimal(n / 10) + [0x30 + n % 10];
      assert Init(ds) == Decimal(n / 10);
      ds
  }

  function Decimals(ps: seq<u32>): (fs: seq<seq<u8>>)
    ensures |fs| == |ps| && AllFieldsDigits(fs)
  {
    seq(|ps|, i requires 0 <= i < |ps| => Decimal(ps[i]))
  }

  /** A parameter list as it is written: decimal, joined by semicolons. */
  function Written(ps: seq<u32>): seq<u8> {
    if ps == [] then [] else Join(Decimals(ps))
  }

  lemma {:induction false} JoinHasNoFinal(fs: seq<seq<u8>>)
    requires fs != [] && AllFieldsDigits(fs)
    ensures NoFinal(Join(fs))
    decreases |fs|
  {
    if |fs| > 1 {
      JoinHasNoFinal(Init(fs));
    }
  }

  lemma NumbersOfDecimals(ps: seq<u32>)
    ensures Numbers(Decimals(ps)) == ps
  {
  }

  /** Writing and reading a list of 32-bit parameters gives the list back. */
  lemma ParametersRoundTrip(ps: seq<u32>)
    ensures NoFinal(Written(ps))
    ensures Parameters(Written(ps)) == ps
  {
    if ps == [] {
      assert Fields([]) == [[]];
    } else {
      var fs := Decimals(ps);
      JoinHasNoFinal(fs);
      FieldsOfJoin(fs);
      assert Last(fs) == Decimal(ps[|ps| - 1]);
      NumbersOfDecimals(ps);
    }
  }

  /** The control sequence with parameters `ps`, end to end. */
  lemma WrittenSequence(s: State, ps: seq<u32>, final: u8)
    requires s.mode == Ground && IsFinal(final)
    ensures Run(s, CsiBytes(Written(ps), final)) == AfterCsi(s, ps, final)
    ensures var acts := Actions(s, CsiBytes(Written(ps), final));
      && acts[|acts| - 1] == CsiAction(ps, final)
      && (forall i :: 0 <= i < |acts| - 1 ==> acts[i] == Nothing)
  {
    ParametersRoundTrip(ps);
    ControlSequence(s, Written(ps), final);
  }
}
