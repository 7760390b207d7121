/** When the screensaver runs: over every run, by the time of the last key. */
module IdleLaws {
  import opened Keyboard
  import opened Framebuffer
  import opened EventLoop
  import opened KeyLaws

  /** The time of the last key that has output, or `since` if there is none. */
  function LastKeyTime(mods: Mods, since: int, keys: seq<KeyRead>): int
    decreases |keys|
  {
    if keys == [] then since
    else if keys[0].ev.None? then LastKeyTime(mods, since, keys[1..])
    else
      var (mods', out) := Decode(mods, keys[0].ev.value);
      LastKeyTime(mods', if out == [] then since else keys[0].at, keys[1..])
  }

  /** Some key has output. */
  predicate AnyKey(mods: Mods, keys: seq<KeyRead>)
    decreases |keys|
  {
    && keys != []
    && if keys[0].ev.None? then AnyKey(mods, keys[1..])
       else var (mods', out) := Decode(mods, keys[0].ev.value); out != [] || AnyKey(mods', keys[1..])
  }

  /** All that the keyboards deliver in a run. */
  function AllKeys(inputs: seq<Input>): seq<KeyRead> {
    if inputs == [] then [] else inputs[0].keys + AllKeys(inputs[1..])
  }

  lemma {:induction false} KeysSetTheTime(s: Server, keys: seq<KeyRead>)
    ensures var t := KeysStep(s, keys);
      && t.idleSince == LastKeyTime(s.mods, s.idleSince, keys)
      && t.saving == (s.saving && !AnyKey(s.mods, keys))
    decreases |keys|
  {
    if keys != [] {
      KeysSetTheTime(KeyStep(s, keys[0]), keys[1..]);
    }
  }

  lemma {:induction false} LastKeyAppend(s: Server, a: seq<KeyRead>, b: seq<KeyRead>)
    ensures LastKeyTime(s.mods, s.idleSince, a + b)
         == LastKeyTime(KeysStep(s, a).mods, KeysStep(s, a).idleSince, b)
    decreases |a|
  {
    if a == [] {
      assert a + b == b;
    } else {
      assert (a + b)[1..] == a[1..] + b;
      LastKeyAppend(KeyStep(s, a[0]), a[1..], b);
    }
  }

  /** Refresh and shell touch neither the clock nor the modifiers, nor does drawing. */
  lemma OnlyKeysBefore(s: Server, input: Input, f: Font)
    requires ServerOk(s, f)
    ensures var b := BeforeKeys(s, input, f);
      b.idleSince == s.idleSince && b.mods == s.mods && b.saving == s.saving
  {
    RefreshKeepsKeys(s, input, f);
  }

  lemma OnlyIdleAfter(s: Server, input: Input, f: Font)
    requires ServerOk(s, f)
    ensures var k, t := KeysStep(BeforeKeys(s, input, f), input.keys), Iterate(s, input, f);
      && t.idleSince == k.idleSince && t.mods == k.mods
      && t.saving == (k.saving || input.later - k.idleSince >= 600_000)
  {
    var k := KeysStep(BeforeKeys(s, input, f), input.keys);
    assert Advance(s, input, f) == IdleStep(k, input.later);
  }

  lemma OnlyKeysSetTheTime(s: Server, input: Input, f: Font)
    requires ServerOk(s, f)
    ensures var k, t := KeysStep(s, input.keys), Iterate(s, input, f);
      && t.idleSince == k.idleSince && t.mods == k.mods
      && t.saving == (k.saving || input.later - k.idleSince >= 600_000)
  {
    OnlyKeysBefore(s, input, f);
    OnlyIdleAfter(s, input, f);
    SameTimes(s, BeforeKeys(s, input, f), input.keys);
  }

  lemma SameTimes(s: Server, t: Server, keys: seq<KeyRead>)
    requires s.mods == t.mods && s.idleSince == t.idleSince && s.saving == t.saving
    ensures var a, b := KeysStep(s, keys), KeysStep(t, keys);
      a.mods == b.mods && a.idleSince == b.idleSince && a.saving == b.saving
    decreases |keys|
  {
    if keys != [] {
      SameTimes(KeyStep(s, keys[0]), KeyStep(t, keys[0]), keys[1..]);
    }
  }

  /** Over every run, the clock of the screensaver stands at the last key with output, or
      at the start. */
  lemma {:induction false} ClockIsLastKey(s: Server, inputs: seq<Input>, f: Font)
    requires ServerOk(s, f)
    ensures RunLoop(s, inputs, f).idleSince == LastKeyTime(s.mods, s.idleSince, AllKeys(inputs))
    decreases |inputs|
  {
    if inputs != [] {
      var t := Iterate(s, inputs[0], f);
      OnlyKeysSetTheTime(s, inputs[0], f);
      ClockIsLastKey(t, inputs[1..], f);
      LastKeyAppend(s, inputs[0].keys, AllKeys(inputs[1..]));
    }
  }

  /** After an iteration the screensaver is on exactly if ten minutes have passed since the
      last key with output, or it was on and there was none. */
  lemma SavesExactlyWhenIdle(s: Server, input: Input, f: Font)
    requires ServerOk(s, f)
    ensures Iterate(s, input, f).saving <==>
      || input.later - LastKeyTime(s.mods, s.idleSince, input.keys) >= 600_000
      || (s.saving && !AnyKey(s.mods, input.keys))
  {
    OnlyKeysSetTheTime(s, input, f);
    KeysSetTheTime(s, input.keys);
  }
}
