/** What becomes of every key across the screensaver. */
module KeyLaws {
  import opened Primitives
  import opened Keyboard
  import opened Framebuffer
  import opened EventLoop

  /** A key with output (and whether a shell was there), or the screensaver starting. */
  datatype Happening = Key(out: seq<u8>, live: bool) | Activated

  /** What happens while the keyboards are read. */
  function KeyTrace(mods: Mods, live: bool, keys: seq<KeyRead>): seq<Happening>
    decreases |keys|
  {
    if keys == [] then []
    else if keys[0].ev.None? then KeyTrace(mods, live, keys[1..])
    else
      var (mods', out) := Decode(mods, keys[0].ev.value);
      (if out == [] then [] else [Key(out, live)]) + KeyTrace(mods', live, keys[1..])
  }

  function BeforeKeys(s: Server, input: Input, f: Font): (s': Server)
    requires ServerOk(s, f)
    ensures ServerOk(s', f)
  {
    RefreshStepIsOk(s, input, f);
    var s1 := ExitStep(RefreshStep(s, input, f), input.exited);
    OutputStepIsOk(s1, input.output, f);
    OutputStep(s1, input.output)
  }

  predicate Activates(s: Server, later: int) {
    !s.saving && later - s.idleSince >= IDLE_TIMEOUT
  }

  function IterationTrace(s: Server, input: Input, f: Font): seq<Happening>
    requires ServerOk(s, f)
  {
    var s2 := BeforeKeys(s, input, f);
    KeyTrace(s2.mods, s2.pty.Some?, input.keys)
    + (if Activates(KeysStep(s2, input.keys), input.later) then [Activated] else [])
  }

  function Trace(s: Server, inputs: seq<Input>, f: Font): seq<Happening>
    requires ServerOk(s, f)
    decreases |inputs|
  {
    if inputs == [] then [] else IterationTrace(s, inputs[0], f) + Trace(Iterate(s, inputs[0], f), inputs[1..], f)
  }

  // ----- The rule -----

  /** A key is swallowed when it comes right after an activation (or comes first and
      the screensaver was already on). */
  predicate Swallowed(saving: bool, tr: seq<Happening>, i: nat)
    requires i < |tr|
  {
    tr[i].Key? && (if i == 0 then saving else tr[i - 1].Activated?)
  }

  predicate Passes(saving: bool, tr: seq<Happening>, i: nat)
    requires i < |tr|
  {
    tr[i].Key? && tr[i].live && !Swallowed(saving, tr, i)
  }

  /** The outputs that pass, in order. */
  function Forwarded(saving: bool, tr: seq<Happening>): seq<seq<u8>> {
    if tr == [] then []
    else
      var n := |tr| - 1;
      Forwarded(saving, tr[..n]) + (if Passes(saving, tr, n) then [tr[n].out] else [])
  }

  function SavingAfter(saving: bool, tr: seq<Happening>): bool {
    if tr == [] then saving else tr[|tr| - 1].Activated?
  }

  /** The screensaver never starts twice without a key in between. */
  predicate Alternates(saving: bool, tr: seq<Happening>) {
    forall i :: 0 <= i < |tr| ==> MayStart(saving, tr, i)
  }

  predicate MayStart(saving: bool, tr: seq<Happening>, i: nat)
    requires i < |tr|
  {
    tr[i].Activated? ==> (if i == 0 then !saving else tr[i - 1].Key?)
  }

  function Activations(tr: seq<Happening>): nat {
    if tr == [] then 0
    else Activations(tr[..|tr| - 1]) + (if tr[|tr| - 1].Activated? then 1 else 0)
  }

  function SwallowedCount(saving: bool, tr: seq<Happening>): nat {
    if tr == [] then 0
    else SwallowedCount(saving, tr[..|tr| - 1]) + (if Swallowed(saving, tr, |tr| - 1) then 1 else 0)
  }

  function One(b: bool): nat {
    if b then 1 else 0
  }

  /** Activations and swallowed keys balance, up to one that is still pending. */
  lemma {:induction false} ActivationsBalance(saving: bool, tr: seq<Happening>)
    requires Alternates(saving, tr)
    ensures One(saving) + Activations(tr) == SwallowedCount(saving, tr) + One(SavingAfter(saving, tr))
    decreases |tr|
  {
    if tr != [] {
      var n := |tr| - 1;
      var init := tr[..n];
      assert forall i :: 0 <= i < n ==> MayStart(saving, init, i) == MayStart(saving, tr, i);
      assert MayStart(saving, tr, n);
      ActivationsBalance(saving, init);
    }
  }

  lemma {:induction false} ForwardedAppend(saving: bool, a: seq<Happening>, b: seq<Happening>)
    ensures Forwarded(saving, a + b) == Forwarded(saving, a) + Forwarded(SavingAfter(saving, a), b)
    ensures SavingAfter(saving, a + b) == SavingAfter(SavingAfter(saving, a), b)
    decreases |b|
  {
    if b == [] {
      assert a + b == a;
    } else {
      var n := |b| - 1;
      var ab := a + b;
      assert ab[..|a| + n] == a + b[..n];
      ForwardedAppend(saving, a, b[..n]);
      assert Passes(saving, ab, |a| + n) == Passes(SavingAfter(saving, a), b, n);
    }
  }

  lemma AlternatesAppend(saving: bool, a: seq<Happening>, b: seq<Happening>)
    requires Alternates(saving, a) && Alternates(SavingAfter(saving, a), b)
    ensures Alternates(saving, a + b)
  {
    var ab := a + b;
    forall i | 0 <= i < |ab|
      ensures MayStart(saving, ab, i)
    {
      if i < |a| {
        assert MayStart(saving, a, i);
      } else {
        assert MayStart(SavingAfter(saving, a), b, i - |a|);
      }
    }
  }

  // ----- The loop follows the rule -----

  /** Between `s` and `t` exactly the keys that pass in `tr` have gone to the shell. */
  predicate Follows(s: Server, tr: seq<Happening>, t: Server) {
    && t.written == s.written + Forwarded(s.saving, tr)
    && t.saving == SavingAfter(s.saving, tr)
    && Alternates(s.saving, tr)
  }

  lemma FollowsAppend(s: Server, a: seq<Happening>, t: Server, b: seq<Happening>, u: Server)
    requires Follows(s, a, t) && Follows(t, b, u)
    ensures Follows(s, a + b, u)
  {
    ForwardedAppend(s.saving, a, b);
    AlternatesAppend(s.saving, a, b);
  }

  lemma FollowsNothing(s: Server, t: Server)
    requires t.written == s.written && t.saving == s.saving
    ensures Follows(s, [], t)
  {
  }

  lemma {:induction false} KeysFollowRule(s: Server, keys: seq<KeyRead>)
    ensures Follows(s, KeyTrace(s.mods, s.pty.Some?, keys), KeysStep(s, keys))
    decreases |keys|
  {
    if keys == [] {
      FollowsNothing(s, s);
    } else {
      var s1 := KeyStep(s, keys[0]);
      KeysFollowRule(s1, keys[1..]);
      if keys[0].ev.Some? {
        var out := Decode(s.mods, keys[0].ev.value).1;
        var head := if out == [] then [] else [Key(out, s.pty.Some?)];
        OneKeyFollowsRule(s, keys[0], head);
        FollowsAppend(s, head, s1, KeyTrace(s1.mods, s.pty.Some?, keys[1..]), KeysStep(s1, keys[1..]));
      }
    }
  }

  lemma OneKeyFollowsRule(s: Server, k: KeyRead, head: seq<Happening>)
    requires k.ev.Some?
    requires var out := Decode(s.mods, k.ev.value).1;
      head == if out == [] then [] else [Key(out, s.pty.Some?)]
    ensures Follows(s, head, KeyStep(s, k))
  {
  }

  lemma IdleFollowsRule(s: Server, later: int)
    ensures Follows(s, if Activates(s, later) then [Activated] else [], IdleStep(s, later))
  {
  }

  /** Neither the refresh and the shell's output nor the drawing touch keys. */
  lemma KeysAsideNothingHappens(s: Server, input: Input, f: Font)
    requires ServerOk(s, f)
    ensures var s2 := BeforeKeys(s, input, f); var a := Advance(s, input, f); var t := Iterate(s, input, f);
      && SameKeys(s, s2)
      && a == IdleStep(KeysStep(s2, input.keys), input.later)
      && SameKeys(a, t)
  {
    RefreshKeepsKeys(s, input, f);
    PaintKeepsKeys(Advance(s, input, f), input, f);
  }

  predicate SameKeys(s: Server, t: Server) {
    t.written == s.written && t.saving == s.saving && t.mods == s.mods
  }

  lemma RefreshKeepsKeys(s: Server, input: Input, f: Font)
    requires FontOk(f)
    ensures SameKeys(s, RefreshStep(s, input, f))
  {
  }

  lemma PaintKeepsKeys(s: Server, input: Input, f: Font)
    requires ServerOk(s, f)
    ensures SameKeys(s, PaintStep(s, input, f))
  {
  }

  lemma IterationFollowsRule(s: Server, input: Input, f: Font)
    requires ServerOk(s, f)
    ensures Follows(s, IterationTrace(s, input, f), Iterate(s, input, f))
  {
    var s2 := BeforeKeys(s, input, f);
    var s3 := KeysStep(s2, input.keys);
    KeysAsideNothingHappens(s, input, f);
    KeysFollowRule(s2, input.keys);
    IdleFollowsRule(s3, input.later);
    FollowsAppend(s2, KeyTrace(s2.mods, s2.pty.Some?, input.keys), s3,
                  if Activates(s3, input.later) then [Activated] else [], IdleStep(s3, input.later));
  }

  /** Over every run: what reaches the shell is exactly the outputs that pass, in
      order; the screensaver is on exactly when an activation came last; and it never
      starts twice without a key in between. */
  lemma {:induction false} KeysAreConserved(s: Server, inputs: seq<Input>, f: Font)
    requires ServerOk(s, f)
    ensures Follows(s, Trace(s, inputs, f), RunLoop(s, inputs, f))
    decreases |inputs|
  {
    if inputs == [] {
      FollowsNothing(s, s);
    } else {
      var s1 := Iterate(s, inputs[0], f);
      IterationFollowsRule(s, inputs[0], f);
      KeysAreConserved(s1, inputs[1..], f);
      FollowsAppend(s, IterationTrace(s, inputs[0], f), s1, Trace(s1, inputs[1..], f), RunLoop(s1, inputs[1..], f));
    }
  }

  // ----- The keys of the trace are the decoder's outputs -----

  function KeysOf(tr: seq<Happening>): seq<seq<u8>>
    decreases |tr|
  {
    if tr == [] then [] else if tr[0].Key? then [tr[0].out] + KeysOf(tr[1..]) else KeysOf(tr[1..])
  }

  function EventsOf(keys: seq<KeyRead>): seq<KeyEvent>
    decreases |keys|
  {
    if keys == [] then []
    else if keys[0].ev.Some? then [keys[0].ev.value] + EventsOf(keys[1..])
    else EventsOf(keys[1..])
  }

  function AllEvents(inputs: seq<Input>): seq<KeyEvent>
    decreases |inputs|
  {
    if inputs == [] then [] else EventsOf(inputs[0].keys) + AllEvents(inputs[1..])
  }

  lemma {:induction false} KeysOfAppend(a: seq<Happening>, b: seq<Happening>)
    ensures KeysOf(a + b) == KeysOf(a) + KeysOf(b)
    decreases |a|
  {
    if a == [] {
      assert a + b == b;
    } else {
      assert (a + b)[1..] == a[1..] + b;
      KeysOfAppend(a[1..], b);
    }
  }

  /** A key that is neither swallowed nor finds a shell is dropped. */
  function DroppedCount(saving: bool, tr: seq<Happening>): nat {
    if tr == [] then 0
    else
      var n := |tr| - 1;
      DroppedCount(saving, tr[..n]) + One(tr[n].Key? && !Swallowed(saving, tr, n) && !Passes(saving, tr, n))
  }

  /** Every key is forwarded, swallowed or dropped, and only one of these. */
  lemma {:induction false} KeysAddUp(saving: bool, tr: seq<Happening>)
    ensures |KeysOf(tr)| == |Forwarded(saving, tr)| + SwallowedCount(saving, tr) + DroppedCount(saving, tr)
    ensures (forall i :: 0 <= i < |tr| && tr[i].Key? ==> tr[i].live) ==> DroppedCount(saving, tr) == 0
    decreases |tr|
  {
    if tr != [] {
      var n := |tr| - 1;
      KeysAddUp(saving, tr[..n]);
      assert tr == tr[..n] + [tr[n]];
      KeysOfAppend(tr[..n], [tr[n]]);
      assert [tr[n]][1..] == [];
    }
  }

  lemma {:induction false} OutputsAppend(m: Mods, a: seq<KeyEvent>, b: seq<KeyEvent>)
    ensures Outputs(m, a + b) == Outputs(m, a) + Outputs(ModsAfter(m, a), b)
    decreases |a|
  {
    if a == [] {
      assert a + b == b;
    } else {
      assert (a + b)[1..] == a[1..] + b;
      OutputsAppend(Decode(m, a[0]).0, a[1..], b);
    }
  }

  lemma {:induction false} KeyTraceIsDecoded(s: Server, live: bool, keys: seq<KeyRead>)
    ensures KeysOf(KeyTrace(s.mods, live, keys)) == Outputs(s.mods, EventsOf(keys))
    ensures KeysStep(s, keys).mods == ModsAfter(s.mods, EventsOf(keys))
    decreases |keys|
  {
    if keys != [] {
      var s1 := KeyStep(s, keys[0]);
      KeyTraceIsDecoded(s1, live, keys[1..]);
      if keys[0].ev.Some? {
        var rest := EventsOf(keys[1..]);
        assert ([keys[0].ev.value] + rest)[1..] == rest;
        var out := Decode(s.mods, keys[0].ev.value).1;
        var tail := KeyTrace(s1.mods, live, keys[1..]);
        if out != [] {
          assert ([Key(out, live)] + tail)[1..] == tail;
        } else {
          assert [] + tail == tail;
        }
      }
    }
  }

  lemma IterationIsDecoded(s: Server, input: Input, f: Font)
    requires ServerOk(s, f)
    ensures KeysOf(IterationTrace(s, input, f)) == Outputs(s.mods, EventsOf(input.keys))
    ensures Iterate(s, input, f).mods == ModsAfter(s.mods, EventsOf(input.keys))
  {
    var s2 := BeforeKeys(s, input, f);
    KeysAsideNothingHappens(s, input, f);
    KeyTraceIsDecoded(s2, s2.pty.Some?, input.keys);
    var act: seq<Happening> := if Activates(KeysStep(s2, input.keys), input.later) then [Activated] else [];
    assert act != [] ==> act[1..] == [];
    assert KeysOf(act) == [];
    KeysOfAppend(KeyTrace(s2.mods, s2.pty.Some?, input.keys), act);
  }

  /** The keys of a run's trace are the decoder's non-empty outputs, in order. */
  lemma {:induction false} TraceIsDecoded(s: Server, inputs: seq<Input>, f: Font)
    requires ServerOk(s, f)
    ensures KeysOf(Trace(s, inputs, f)) == Outputs(s.mods, AllEvents(inputs))
    decreases |inputs|
  {
    if inputs != [] {
      var s1 := Iterate(s, inputs[0], f);
      IterationIsDecoded(s, inputs[0], f);
      TraceIsDecoded(s1, inputs[1..], f);
      KeysOfAppend(IterationTrace(s, inputs[0], f), Trace(s1, inputs[1..], f));
      OutputsAppend(s.mods, EventsOf(inputs[0].keys), AllEvents(inputs[1..]));
    }
  }

  /** From the start, over every run: with `tr` what happened, the keys of `tr` are the
      decoder's outputs, what reached the shell is those that pass, and activations
      exceed swallowed keys by one exactly while the screensaver is on. */
  lemma KeysFromTheStart(at: int, inputs: seq<Input>, f: Font)
    requires FontOk(f)
    ensures var tr := Trace(Started(at), inputs, f); var s := RunLoop(Started(at), inputs, f);
      && KeysOf(tr) == Outputs(Mods(false, false), AllEvents(inputs))
      && s.written == Forwarded(false, tr)
      && Activations(tr) == SwallowedCount(false, tr) + One(s.saving)
      && |KeysOf(tr)| == |s.written| + SwallowedCount(false, tr) + DroppedCount(false, tr)
  {
    var tr := Trace(Started(at), inputs, f);
    TraceIsDecoded(Started(at), inputs, f);
    KeysAreConserved(Started(at), inputs, f);
    ActivationsBalance(false, tr);
    KeysAddUp(false, tr);
    assert [] + Forwarded(false, tr) == Forwarded(false, tr);
  }
}
