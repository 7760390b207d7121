/** Scanning out a display: mode choice, buffers, and the kernel's ledger of what is live. */
module DrmSpec {
  import opened Primitives

  /** What a probe reports of a mode. The size is 16-bit in the kernel's layout. */
  datatype ModeInfo = ModeInfo(hdisplay: u16, vdisplay: u16, modeType: u32)

  datatype Mode = Mode(width: u32, height: u32)

  // ----- Choosing a mode -----

  /** Bit 3 of the type marks the preferred mode. */
  predicate IsPreferred(m: ModeInfo) {
    (m.modeType / 8) % 2 == 1
  }

  function Area(m: ModeInfo): nat {
    m.hdisplay * m.vdisplay
  }

  lemma AreaIs32Bit(m: ModeInfo)
    ensures 0 <= Area(m) < 0x1_0000_0000
  {
    MulLe(m.vdisplay, m.hdisplay, 0xFFFF);
  }

  /** The index of the first preferred mode, or the length if there is none. */
  function FirstPreferred(modes: seq<ModeInfo>): (i: nat)
    ensures i <= |modes|
    ensures forall j :: 0 <= j < i ==> !IsPreferred(modes[j])
    ensures i < |modes| ==> IsPreferred(modes[i])
  {
    if modes == [] || IsPreferred(modes[0]) then 0 else 1 + FirstPreferred(modes[1..])
  }

  /** The index of the last mode of largest area. */
  function LastLargest(modes: seq<ModeInfo>): (i: nat)
    requires modes != []
    ensures i < |modes|
    ensures forall j :: 0 <= j < |modes| ==> Area(modes[j]) <= Area(modes[i])
    ensures forall j :: i < j < |modes| ==> Area(modes[j]) < Area(modes[i])
  {
    var n := |modes| - 1;
    if n == 0 then 0
    else
      var best := LastLargest(modes[..n]);
      if Area(modes[n]) >= Area(modes[best]) then n else best
  }

  function PickIndex(modes: seq<ModeInfo>): nat
    requires modes != []
    ensures PickIndex(modes) < |modes|
  {
    var i := FirstPreferred(modes);
    if i < |modes| then i else LastLargest(modes)
  }

  function Size(m: ModeInfo): Mode {
    Mode(m.hdisplay, m.vdisplay)
  }

  function Picked(modes: seq<ModeInfo>): Mode
    requires modes != []
  {
    Size(modes[PickIndex(modes)])
  }

  // ----- The kernel's side -----

  /** A set of kernel resources: dumb-buffer handles, framebuffer ids, mappings. */
  datatype Resources = Resources(handles: set<u32>, fbs: set<u32>, maps: set<nat>)

  const NONE_HELD := Resources({}, {}, {})

  function Union(a: Resources, b: Resources): Resources {
    Resources(a.handles + b.handles, a.fbs + b.fbs, a.maps + b.maps)
  }

  predicate Disjoint(a: Resources, b: Resources) {
    a.handles !! b.handles && a.fbs !! b.fbs && a.maps !! b.maps
  }

  /** What is live, and how often a release has named something that was not. */
  datatype Ledger = Ledger(live: Resources, faults: nat)

  function DestroyHandle(l: Ledger, h: u32, ok: bool): Ledger {
    if h !in l.live.handles then l.(faults := l.faults + 1)
    else if ok then l.(live := l.live.(handles := l.live.handles - {h}))
    else l
  }

  function RemoveFb(l: Ledger, fb: u32, ok: bool): Ledger {
    if fb !in l.live.fbs then l.(faults := l.faults + 1)
    else if ok then l.(live := l.live.(fbs := l.live.fbs - {fb}))
    else l
  }

  function Unmap(l: Ledger, addr: nat, ok: bool): Ledger {
    if addr !in l.live.maps then l.(faults := l.faults + 1)
    else if ok then l.(live := l.live.(maps := l.live.maps - {addr}))
    else l
  }

  function Gain(l: Ledger, r: Resources): Ledger {
    l.(live := Union(l.live, r))
  }

  /** A dumb buffer as the kernel hands it out. */
  datatype Dumb = Dumb(handle: u32, pitch: u32, size: nat)

  /** Whether the three releases of a teardown succeed. */
  datatype Release = Release(unmapped: bool, fbRemoved: bool, destroyed: bool)

  /** The kernel's answers during one refresh, each used only if the call is made. */
  datatype Answers = Answers(
    probe: Option<(bool, seq<ModeInfo>)>,
    crtc: Option<u32>,
    release: Release,
    create: Option<Dumb>,
    addFb: Option<u32>,
    mapDumb: bool,
    mmap: Option<nat>,
    setCrtc: bool,
    cleanup: bool)

  // ----- The server's side -----

  datatype ScanOut = ScanOut(fbId: u32, handle: u32, addr: nat, pixels: seq<u8>, pitch: u32, width: u32, height: u32)

  datatype Drm = Drm(crtc: u32, scanout: Option<ScanOut>, ledger: Ledger)

  const OPENED := Drm(0, None, Ledger(NONE_HELD, 0))

  datatype Outcome = Failed | Disconnected | Active(mode: Mode)

  function Owned(so: Option<ScanOut>): Resources {
    if so.None? then NONE_HELD else Resources({so.value.handle}, {so.value.fbId}, {so.value.addr})
  }

  /** Unmaps and frees the scanout, if there is one; failures are ignored. */
  function Teardown(d: Drm, rel: Release): Drm {
    if d.scanout.None? then d
    else
      var so := d.scanout.value;
      var l1 := Unmap(d.ledger, so.addr, rel.unmapped);
      var l2 := RemoveFb(l1, so.fbId, rel.fbRemoved);
      d.(scanout := None, ledger := DestroyHandle(l2, so.handle, rel.destroyed))
  }

  function Zeros(n: nat): seq<u8> {
    seq(n, _ => 0)
  }

  /** Builds a scanout of size `m`; the result says whether every step succeeded. */
  function ScanOutMode(d: Drm, m: Mode, a: Answers): (Drm, bool) {
    if a.create.None? then (d, false)
    else
      var cd := a.create.value;
      var l1 := Gain(d.ledger, Resources({cd.handle}, {}, {}));
      if a.addFb.None? then (d.(ledger := DestroyHandle(l1, cd.handle, a.cleanup)), false)
      else
        var fb := a.addFb.value;
        var l2 := Gain(l1, Resources({}, {fb}, {}));
        if !a.mapDumb then (d.(ledger := l2), false)
        else if a.mmap.None? then (d.(ledger := DestroyHandle(l2, cd.handle, a.cleanup)), false)
        else
          var addr := a.mmap.value;
          var l3 := Gain(l2, Resources({}, {}, {addr}));
          if !a.setCrtc then (d.(ledger := l3), false)
          else
            (d.(ledger := l3,
                scanout := Some(ScanOut(fb, cd.handle, addr, Zeros(cd.size), cd.pitch, m.width, m.height))), true)
  }

  predicate Connected(a: Answers) {
    a.probe.Some? && a.probe.value.0 && a.probe.value.1 != []
  }

  predicate SameSize(so: Option<ScanOut>, m: Mode) {
    so.Some? && so.value.width == m.width && so.value.height == m.height
  }

  /** Probes the connector and follows what it reports. */
  function Refresh(d: Drm, a: Answers): (Drm, Outcome) {
    if a.probe.None? then (d, Failed)
    else if !Connected(a) then (Teardown(d, a.release), Disconnected)
    else
      var m := Picked(a.probe.value.1);
      if SameSize(d.scanout, m) then (d, Active(m))
      else if a.crtc.None? then (d, Failed)
      else
        var torn := Teardown(d.(crtc := a.crtc.value), a.release);
        var (d', ok) := ScanOutMode(torn, m, a);
        (d', if ok then Active(m) else Failed)
  }

  /** A refresh that gets as far as building a scanout. */
  predicate Rebuilds(d: Drm, a: Answers) {
    Connected(a) && !SameSize(d.scanout, Picked(a.probe.value.1)) && a.crtc.Some?
  }

  // ----- Choosing and repeating -----

  /** Bit 3 of the type of a mode. */
  predicate SaysPreferred(m: ModeInfo) {
    m.modeType % 16 >= 8
  }

  /** The mode to choose: the first that says it is preferred, else, if none does, the last
      of those with most pixels. */
  predicate IsPick(modes: seq<ModeInfo>, i: nat)
    requires i < |modes|
  {
    || (SaysPreferred(modes[i]) && forall j :: 0 <= j < i ==> !SaysPreferred(modes[j]))
    || (&& (forall j :: 0 <= j < |modes| ==> !SaysPreferred(modes[j]))
        && (forall j :: 0 <= j < |modes| ==>
              modes[j].hdisplay * modes[j].vdisplay <= modes[i].hdisplay * modes[i].vdisplay)
        && (forall j :: i < j < |modes| ==>
              modes[j].hdisplay * modes[j].vdisplay < modes[i].hdisplay * modes[i].vdisplay))
  }

  lemma PreferredBit(m: ModeInfo)
    ensures IsPreferred(m) <==> SaysPreferred(m)
  {
  }

  lemma PickIndexIsPick(modes: seq<ModeInfo>)
    requires modes != []
    ensures IsPick(modes, PickIndex(modes))
  {
    forall j | 0 <= j < |modes|
      ensures IsPreferred(modes[j]) <==> SaysPreferred(modes[j])
    {
      PreferredBit(modes[j]);
    }
  }

  /** Success names that mode, and there is a scanout of that size; no display leaves
      none. */
  lemma RefreshPicks(d: Drm, a: Answers)
    ensures var (d', o) := Refresh(d, a);
      && (o.Active? ==>
            && Connected(a)
            && SameSize(d'.scanout, o.mode)
            && var modes := a.probe.value.1;
               exists i :: 0 <= i < |modes| && IsPick(modes, i) && o.mode == Mode(modes[i].hdisplay, modes[i].vdisplay))
      && (o == Disconnected ==> d'.scanout == None)
  {
    if Connected(a) {
      PickIndexIsPick(a.probe.value.1);
    }
  }

  /** Every answer that building a scanout needs. */
  predicate BuildSucceeds(a: Answers) {
    a.create.Some? && a.addFb.Some? && a.mapDumb && a.mmap.Some? && a.setCrtc
  }

  /** What a refresh returns: a failed probe is a failure; no display, or one without modes,
      is a disconnect; otherwise it is active exactly if the scanout has the right size
      already, or a controller is found and every step of building succeeds. */
  lemma OutcomeExactlyWhen(d: Drm, a: Answers)
    ensures var o := Refresh(d, a).1;
      && (a.probe.None? ==> o == Failed)
      && (a.probe.Some? && (!a.probe.value.0 || a.probe.value.1 == []) ==> o == Disconnected)
      && (a.probe.Some? && a.probe.value.0 && a.probe.value.1 != [] ==>
            var m := Picked(a.probe.value.1);
            o == if SameSize(d.scanout, m) || (a.crtc.Some? && BuildSucceeds(a)) then Active(m) else Failed)
  {
  }

  /** What it does to the scanout: without a rebuild or a disconnect nothing changes; a
      rebuild that succeeds leaves the kernel's buffer, zeroed, with its pitch and the size
      of the mode; in all other cases there is none. */
  lemma RefreshedScanOut(d: Drm, a: Answers)
    ensures var d' := Refresh(d, a).0;
      && (a.probe.None? || (Connected(a) && !Rebuilds(d, a)) ==> d' == d)
      && (a.probe.Some? && !Connected(a) ==> d'.scanout == None && d'.crtc == d.crtc)
      && (Rebuilds(d, a) ==> d'.crtc == a.crtc.value)
      && (Rebuilds(d, a) && !BuildSucceeds(a) ==> d'.scanout == None)
      && (Rebuilds(d, a) && BuildSucceeds(a) ==>
            && d'.scanout.Some?
            && var so, m := d'.scanout.value, Picked(a.probe.value.1);
            && so.fbId == a.addFb.value && so.handle == a.create.value.handle && so.addr == a.mmap.value
            && so.pitch == a.create.value.pitch && so.width == m.width && so.height == m.height
            && |so.pixels| == a.create.value.size && forall i :: 0 <= i < |so.pixels| ==> so.pixels[i] == 0)
  {
  }

  /** Once active, refreshing with an unchanged probe changes nothing at all, whatever
      the rest of the kernel would answer. */
  lemma RefreshIsIdempotent(d: Drm, a: Answers, b: Answers)
    requires Refresh(d, a).1.Active? && b.probe == a.probe
    ensures Refresh(Refresh(d, a).0, b) == Refresh(d, a)
  {
  }

  // ----- The ledger -----

  /** The kernel never hands out an id that is live. */
  predicate FreshIds(live: Resources, a: Answers) {
    && (a.create.Some? ==> a.create.value.handle !in live.handles)
    && (a.addFb.Some? ==> a.addFb.value !in live.fbs)
    && (a.mmap.Some? ==> a.mmap.value !in live.maps)
  }

  predicate KernelOk(d: Drm, a: Answers) {
    Rebuilds(d, a) ==> FreshIds(Teardown(d, a.release).ledger.live, a)
  }

  /** What a teardown leaves behind: the resources whose release failed. */
  function TeardownLeak(so: Option<ScanOut>, rel: Release): Resources {
    if so.None? then NONE_HELD
    else Resources(
      if rel.destroyed then {} else {so.value.handle},
      if rel.fbRemoved then {} else {so.value.fbId},
      if rel.unmapped then {} else {so.value.addr})
  }

  /** What building a scanout leaves behind, by the step that failed. */
  function BuildLeak(a: Answers): Resources {
    if a.create.None? then NONE_HELD
    else
      var kept := if a.cleanup then {} else {a.create.value.handle};
      if a.addFb.None? then Resources(kept, {}, {})
      else if !a.mapDumb then Resources({a.create.value.handle}, {a.addFb.value}, {})
      else if a.mmap.None? then Resources(kept, {a.addFb.value}, {})
      else if !a.setCrtc then Resources({a.create.value.handle}, {a.addFb.value}, {a.mmap.value})
      else NONE_HELD
  }

  /** What one refresh leaves behind. */
  function Leak(d: Drm, a: Answers): Resources {
    if Rebuilds(d, a) then Union(TeardownLeak(d.scanout, a.release), BuildLeak(a))
    else if a.probe.Some? && !Connected(a) then TeardownLeak(d.scanout, a.release)
    else NONE_HELD
  }

  /** Live is exactly what the server owns plus what has been left behind, with no
      overlap, and no release ever missed. */
  predicate Balanced(d: Drm, lost: Resources) {
    && d.ledger.live == Union(Owned(d.scanout), lost)
    && Disjoint(Owned(d.scanout), lost)
    && d.ledger.faults == 0
  }

  lemma TeardownBalances(d: Drm, rel: Release, lost: Resources)
    requires Balanced(d, lost)
    ensures Teardown(d, rel).scanout == None
    ensures Balanced(Teardown(d, rel), Union(lost, TeardownLeak(d.scanout, rel)))
  {
  }

  lemma BuildBalances(d: Drm, m: Mode, a: Answers, lost: Resources)
    requires Balanced(d, lost) && d.scanout == None && FreshIds(d.ledger.live, a)
    ensures Balanced(ScanOutMode(d, m, a).0, Union(lost, BuildLeak(a)))
  {
  }

  lemma UnionAssoc(a: Resources, b: Resources, c: Resources)
    ensures Union(Union(a, b), c) == Union(a, Union(b, c))
    ensures Union(a, NONE_HELD) == a
  {
  }

  lemma RefreshBalances(d: Drm, a: Answers, lost: Resources)
    requires Balanced(d, lost) && KernelOk(d, a)
    ensures Balanced(Refresh(d, a).0, Union(lost, Leak(d, a)))
  {
    TeardownBalances(d, a.release, lost);
    UnionAssoc(lost, TeardownLeak(d.scanout, a.release), BuildLeak(a));
    if Rebuilds(d, a) {
      var m := Picked(a.probe.value.1);
      var torn := Teardown(d.(crtc := a.crtc.value), a.release);
      assert torn == Teardown(d, a.release).(crtc := a.crtc.value);
      BuildBalances(torn, m, a, Union(lost, TeardownLeak(d.scanout, a.release)));
    }
  }

  function RefreshAll(d: Drm, run: seq<Answers>): Drm
    decreases |run|
  {
    if run == [] then d else RefreshAll(Refresh(d, run[0]).0, run[1..])
  }

  predicate RunOk(d: Drm, run: seq<Answers>)
    decreases |run|
  {
    run == [] || (KernelOk(d, run[0]) && RunOk(Refresh(d, run[0]).0, run[1..]))
  }

  /** What a whole run leaves behind. */
  function LeakAll(d: Drm, run: seq<Answers>): Resources
    decreases |run|
  {
    if run == [] then NONE_HELD else Union(Leak(d, run[0]), LeakAll(Refresh(d, run[0]).0, run[1..]))
  }

  lemma {:induction false} RunBalances(d: Drm, run: seq<Answers>, lost: Resources)
    requires Balanced(d, lost) && RunOk(d, run)
    ensures Balanced(RefreshAll(d, run), Union(lost, LeakAll(d, run)))
    decreases |run|
  {
    UnionAssoc(lost, NONE_HELD, NONE_HELD);
    if run != [] {
      var d' := Refresh(d, run[0]).0;
      RefreshBalances(d, run[0], lost);
      RunBalances(d', run[1..], Union(lost, Leak(d, run[0])));
      UnionAssoc(lost, Leak(d, run[0]), LeakAll(d', run[1..]));
    }
  }

  /** Over every run from opening the card: nothing is released that is not live, and
      live is exactly the scanout plus what failed steps left behind. After the drop
      only those, and what the last teardown failed to release, are left. */
  lemma LedgerIsExact(run: seq<Answers>, rel: Release)
    requires RunOk(OPENED, run)
    ensures Balanced(RefreshAll(OPENED, run), LeakAll(OPENED, run))
    ensures var d := RefreshAll(OPENED, run); var dropped := Teardown(d, rel);
      && dropped.ledger.faults == 0
      && dropped.ledger.live == Union(LeakAll(OPENED, run), TeardownLeak(d.scanout, rel))
  {
    RunBalances(OPENED, run, NONE_HELD);
    assert Union(NONE_HELD, LeakAll(OPENED, run)) == LeakAll(OPENED, run);
    TeardownBalances(RefreshAll(OPENED, run), rel, LeakAll(OPENED, run));
  }

  // ----- When nothing is left behind -----

  /** Building a scanout either gets nowhere, is undone, or succeeds. */
  predicate BuildClean(a: Answers) {
    || a.create.None?
    || (a.addFb.None? && a.cleanup)
    || (a.addFb.Some? && a.mapDumb && a.mmap.Some? && a.setCrtc)
  }

  /** The three releases of a teardown succeed, if there is something to release. */
  predicate TeardownClean(so: Option<ScanOut>, rel: Release) {
    so.Some? ==> rel.unmapped && rel.fbRemoved && rel.destroyed
  }

  /** The calls that this refresh makes leave nothing behind. */
  predicate StepClean(d: Drm, a: Answers) {
    && (Rebuilds(d, a) ==> TeardownClean(d.scanout, a.release) && BuildClean(a))
    && (a.probe.Some? && !Connected(a) ==> TeardownClean(d.scanout, a.release))
  }

  predicate RunClean(d: Drm, run: seq<Answers>)
    decreases |run|
  {
    run == [] || (StepClean(d, run[0]) && RunClean(Refresh(d, run[0]).0, run[1..]))
  }

  lemma TeardownLeakExactlyWhen(so: Option<ScanOut>, rel: Release)
    ensures TeardownLeak(so, rel) == NONE_HELD <==> TeardownClean(so, rel)
  {
    if so.Some? {
      assert so.value.handle in {so.value.handle};
      assert so.value.fbId in {so.value.fbId} && so.value.addr in {so.value.addr};
    }
  }

  lemma BuildLeakExactlyWhen(a: Answers)
    ensures BuildLeak(a) == NONE_HELD <==> BuildClean(a)
  {
    if a.create.Some? {
      assert a.create.value.handle in {a.create.value.handle};
      if a.addFb.Some? {
        assert a.addFb.value in {a.addFb.value};
      }
    }
  }

  lemma UnionIsNothing(a: Resources, b: Resources)
    ensures Union(a, b) == NONE_HELD <==> a == NONE_HELD && b == NONE_HELD
  {
  }

  lemma LeakIsNothing(d: Drm, a: Answers)
    ensures Leak(d, a) == NONE_HELD <==> StepClean(d, a)
  {
    TeardownLeakExactlyWhen(d.scanout, a.release);
    BuildLeakExactlyWhen(a);
    UnionIsNothing(TeardownLeak(d.scanout, a.release), BuildLeak(a));
  }

  lemma {:induction false} LeakAllExactlyWhen(d: Drm, run: seq<Answers>)
    ensures LeakAll(d, run) == NONE_HELD <==> RunClean(d, run)
    decreases |run|
  {
    if run != [] {
      var d' := Refresh(d, run[0]).0;
      LeakIsNothing(d, run[0]);
      LeakAllExactlyWhen(d', run[1..]);
      UnionIsNothing(Leak(d, run[0]), LeakAll(d', run[1..]));
    }
  }

  lemma NothingLost(owned: Resources, lost: Resources)
    requires Disjoint(owned, lost)
    ensures Union(owned, lost) == owned <==> lost == NONE_HELD
  {
    if Union(owned, lost) == owned {
      assert lost.handles <= owned.handles && lost.fbs <= owned.fbs && lost.maps <= owned.maps;
    }
  }

  /** What a refresh leaves behind was not left behind before. */
  lemma LeakIsNew(d: Drm, a: Answers, lost: Resources)
    requires Balanced(d, lost) && KernelOk(d, a)
    ensures Disjoint(lost, Leak(d, a))
  {
    TeardownBalances(d, a.release, lost);
  }

  /** One refresh: apart from what was left behind before, live is exactly what the
      scanout owns if and only if the calls it makes leave nothing behind. */
  lemma LeakExactlyWhen(d: Drm, a: Answers, lost: Resources)
    requires Balanced(d, lost) && KernelOk(d, a)
    ensures var d' := Refresh(d, a).0;
      d'.ledger.live == Union(Owned(d'.scanout), lost) <==> StepClean(d, a)
  {
    var owned, leak := Owned(Refresh(d, a).0.scanout), Leak(d, a);
    RefreshBalances(d, a, lost);
    LeakIsNew(d, a, lost);
    LeakIsNothing(d, a);
    UnionAssoc(owned, lost, leak);
    NothingLost(Union(owned, lost), leak);
  }

  /** A teardown takes away exactly what it releases with success. */
  lemma TeardownLeaves(d: Drm, rel: Release, lost: Resources)
    requires Balanced(d, lost) && d.scanout.Some?
    ensures var so, live := d.scanout.value, Teardown(d, rel).ledger.live;
      && live.handles == d.ledger.live.handles - (if rel.destroyed then {so.handle} else {})
      && live.fbs == d.ledger.live.fbs - (if rel.fbRemoved then {so.fbId} else {})
      && live.maps == d.ledger.live.maps - (if rel.unmapped then {so.addr} else {})
  {
  }

  /** What a build that fails leaves live, by the step that fails: the buffer unless it
      is destroyed after ADDFB or mmap, and from MAP_DUMB on the framebuffer. */
  lemma FailedBuildLeaves(d: Drm, m: Mode, a: Answers)
    requires d.scanout == None && a.create.Some? && FreshIds(d.ledger.live, a) && !BuildSucceeds(a)
    ensures var live, before, h := ScanOutMode(d, m, a).0.ledger.live, d.ledger.live, a.create.value.handle;
      && live.handles == before.handles +
           (if a.cleanup && (a.addFb.None? || (a.mapDumb && a.mmap.None?)) then {} else {h})
      && live.fbs == before.fbs + (if a.addFb.Some? then {a.addFb.value} else {})
      && live.maps == before.maps +
           (if a.addFb.Some? && a.mapDumb && a.mmap.Some? then {a.mmap.value} else {})
  {
  }

  /** Over every run from opening the card, live is exactly what the scanout owns if and
      only if every call that was made to release or build left nothing behind; and
      after the drop nothing at all is live if and only if the last teardown did, too. */
  lemma LedgerIsCleanExactlyWhen(run: seq<Answers>, rel: Release)
    requires RunOk(OPENED, run)
    ensures var d := RefreshAll(OPENED, run);
      && (d.ledger.live == Owned(d.scanout) <==> RunClean(OPENED, run))
      && (Teardown(d, rel).ledger.live == NONE_HELD <==> RunClean(OPENED, run) && TeardownClean(d.scanout, rel))
  {
    var d, lost := RefreshAll(OPENED, run), LeakAll(OPENED, run);
    LedgerIsExact(run, rel);
    LeakAllExactlyWhen(OPENED, run);
    NothingLost(Owned(d.scanout), lost);
    TeardownLeakExactlyWhen(d.scanout, rel);
    UnionIsNothing(lost, TeardownLeak(d.scanout, rel));
  }

  /** A display whose buffer is created but cannot be mapped. */
  const UNMAPPABLE := Answers(Some((true, [ModeInfo(1, 1, 0)])), Some(1), Release(true, true, true),
                              Some(Dumb(1, 4, 4)), Some(1), false, Some(1), true, true)

  /** There a buffer and a framebuffer stay live that no scanout owns. */
  lemma LedgerCanLeak()
    ensures var run := [UNMAPPABLE]; var d := RefreshAll(OPENED, run);
      && RunOk(OPENED, run) && !RunClean(OPENED, run)
      && d.scanout == None && d.ledger.live == Resources({1}, {1}, {})
  {
    var run := [UNMAPPABLE];
    assert run[1..] == [];
    assert RefreshAll(OPENED, run) == Refresh(OPENED, UNMAPPABLE).0;
    assert PickIndex([ModeInfo(1, 1, 0)]) == 0;
    RefreshBalances(OPENED, UNMAPPABLE, NONE_HELD);
  }
}

/** The card object: it owns at most one mapped scanout and talks to the kernel. */
module DrmObject {
  import opened Primitives
  import opened DrmSpec

  /** A scanout whose mapping is real memory. */
  datatype Mapped = Mapped(fbId: u32, handle: u32, addr: nat, pixels: array<u8>, pitch: u32, width: u32, height: u32)

  class Card {
    var crtcId: u32
    var scanout: Option<Mapped>
    ghost var ledger: Ledger

    /** The mapped memory, if any. */
    ghost function Memory(): set<object>
      reads this
    {
      if scanout.Some? then {scanout.value.pixels} else {}
    }

    ghost function View(): Drm
      reads this, Memory()
    {
      Drm(crtcId,
          if scanout.None? then None
          else
            var so := scanout.value;
            Some(ScanOut(so.fbId, so.handle, so.addr, so.pixels[..], so.pitch, so.width, so.height)),
          ledger)
    }

    constructor ()
      ensures View() == OPENED
      ensures scanout == None
    {
      crtcId := 0;
      scanout := None;
      ledger := Ledger(NONE_HELD, 0);
    }

    /** Frees the scanout in the order mapping, framebuffer, buffer. */
    method TeardownScanOut(rel: Release)
      modifies this`scanout, this`ledger
      ensures View() == Teardown(old(View()), rel)
      ensures scanout == None
    {
      if scanout.Some? {
        var so := scanout.value;
        scanout := None;
        ledger := Unmap(ledger, so.addr, rel.unmapped);
        ledger := RemoveFb(ledger, so.fbId, rel.fbRemoved);
        ledger := DestroyHandle(ledger, so.handle, rel.destroyed);
      }
    }

    /** Maps `size` bytes and clears them. */
    method MapCleared(size: nat) returns (pixels: array<u8>)
      ensures fresh(pixels) && pixels[..] == Zeros(size)
    {
      pixels := new u8[size];
      for i := 0 to size
        invariant forall k :: 0 <= k < i ==> pixels[k] == 0
      {
        pixels[i] := 0;
      }
    }

    method ScanOutAt(m: Mode, a: Answers) returns (ok: bool)
      requires scanout == None
      modifies this`scanout, this`ledger
      ensures (View(), ok) == ScanOutMode(old(View()), m, a)
      ensures fresh(Memory())
    {
      if a.create.None? {
        return false;
      }
      var cd := a.create.value;
      ledger := Gain(ledger, Resources({cd.handle}, {}, {}));
      if a.addFb.None? {
        ledger := DestroyHandle(ledger, cd.handle, a.cleanup);
        return false;
      }
      var fb := a.addFb.value;
      ledger := Gain(ledger, Resources({}, {fb}, {}));
      if !a.mapDumb {
        return false;
      }
      if a.mmap.None? {
        ledger := DestroyHandle(ledger, cd.handle, a.cleanup);
        return false;
      }
      ledger := Gain(ledger, Resources({}, {}, {a.mmap.value}));
      var pixels := MapCleared(cd.size);
      if !a.setCrtc {
        return false;
      }
      scanout := Some(Mapped(fb, cd.handle, a.mmap.value, pixels, cd.pitch, m.width, m.height));
      return true;
    }

    /** Re-probes the connector; on a new size, tears down and scans out afresh. */
    method Refresh(a: Answers) returns (o: Outcome)
      modifies this
      ensures (View(), o) == DrmSpec.Refresh(old(View()), a)
      ensures fresh(Memory() - old(Memory()))
    {
      if a.probe.None? {
        return Failed;
      }
      var (connected, modes) := a.probe.value;
      if !connected || modes == [] {
        TeardownScanOut(a.release);
        return Disconnected;
      }
      var m := Size(modes[PickIndex(modes)]);
      if scanout.Some? && scanout.value.width == m.width && scanout.value.height == m.height {
        return Active(m);
      }
      if a.crtc.None? {
        return Failed;
      }
      crtcId := a.crtc.value;
      TeardownScanOut(a.release);
      var ok := ScanOutAt(m, a);
      return if ok then Active(m) else Failed;
    }
  }
}
