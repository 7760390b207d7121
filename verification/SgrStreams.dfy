/** Colour sequences on the wire: one joined sequence against two in turn. */
module SgrStreams {
  import opened Primitives
  import opened SgrState
  import opened Control
  import opened ControlLaws
  import opened CsiParameters
  import opened Screen
  import opened TerminalSpec

  /** Terminals that no later event can tell apart. */
  predicate AlikeTerms(t: Term, u: Term) {
    Alike(t.control, u.control) && t.grid == u.grid && t.dirty == u.dirty
  }

  lemma {:induction false} AlikeTermsForever(t: Term, u: Term, es: seq<Event>)
    requires TermOk(t) && TermOk(u) && AlikeTerms(t, u)
    ensures AlikeTerms(Replay(t, es), Replay(u, es))
    decreases |es|
  {
    if es != [] {
      OnKeepsOk(t, es[0]);
      OnKeepsOk(u, es[0]);
      AlikeTermsForever(On(t, es[0]), On(u, es[0]), es[1..]);
    }
  }

  function SgrBytes(ps: seq<u32>): seq<u8> {
    CsiBytes(Written(ps), 'm' as int)
  }

  lemma {:induction false} NothingHappens(g: Grid, acts: seq<Action>)
    requires Shaped(g)
    requires forall i :: 0 <= i < |acts| ==> acts[i] == Nothing
    ensures PerformAll(g, acts) == g
    decreases |acts|
  {
    if acts != [] {
      NothingHappens(g, acts[1..]);
    }
  }

  /** Bytes that request nothing leave the screen alone. */
  lemma QuietBytes(t: Term, bytes: seq<u8>)
    requires Shaped(t.grid) && bytes != []
    requires forall i :: 0 <= i < |bytes| ==> Actions(t.control, bytes)[i] == Nothing
    ensures FeedAll(t, bytes) == Term(Run(t.control, bytes), t.grid, true)
  {
    FeedFactors(t, bytes);
    NothingHappens(t.grid, Actions(t.control, bytes));
  }

  /** A colour sequence changes the colour state and nothing on the screen. */
  lemma SgrSequence(t: Term, ps: seq<u32>)
    requires Shaped(t.grid) && t.control.mode == Ground
    ensures FeedAll(t, SgrBytes(ps)) == Term(AfterCsi(t.control, ps, 'm' as int), t.grid, true)
  {
    WrittenSequence(t.control, ps, 'm' as int);
    QuietBytes(t, SgrBytes(ps));
  }

  ghost predicate StreamsCompose(a: seq<u32>) {
    forall b: seq<u32>, t: Term :: b != [] && Shaped(t.grid) && t.control.mode == Ground ==>
      AlikeTerms(FeedAll(t, SgrBytes(a + b)), FeedAll(t, SgrBytes(a) + SgrBytes(b)))
  }

  lemma TwoSequences(t: Term, a: seq<u32>, b: seq<u32>)
    requires Shaped(t.grid) && t.control.mode == Ground
    ensures var s := t.control.sgr;
      AlikeTerms(FeedAll(t, SgrBytes(a + b)), FeedAll(t, SgrBytes(a) + SgrBytes(b)))
      <==> Apply(a + b, s) == Apply(b, Apply(a, s))
  {
    SgrSequence(t, a + b);
    SgrSequence(t, a);
    SgrSequence(FeedAll(t, SgrBytes(a)), b);
    FeedAppend(t, SgrBytes(a), SgrBytes(b));
  }

  /** `ESC[A;Bm` and `ESC[Am` `ESC[Bm` leave indistinguishable terminals, for every
      nonempty B and every terminal in ground state, exactly when A is nonempty and
      closed. */
  lemma StreamsComposeExactlyWhenClosed(a: seq<u32>)
    ensures StreamsCompose(a) <==> a != [] && Closed(a)
  {
    ComposesExactlyWhenClosed(a);
    if a != [] && Closed(a) {
      forall b: seq<u32>, t: Term | b != [] && Shaped(t.grid) && t.control.mode == Ground
        ensures AlikeTerms(FeedAll(t, SgrBytes(a + b)), FeedAll(t, SgrBytes(a) + SgrBytes(b)))
      {
        TwoSequences(t, a, b);
      }
    } else {
      var b: seq<u32>, s: Sgr :| b != [] && Apply(a + b, s) != Apply(b, Apply(a, s));
      var t := Term(START.(sgr := s), BlankGrid(1, 1), true);
      TwoSequences(t, a, b);
    }
  }
}
