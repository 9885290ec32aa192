/** The life of cleaning tapes across Load's wait with both locks released
    (internal/library/library.go:2811-2814, 2889-3012, 3092-3097, 3195-3200). */
module CleaningLife {
  import opened Common
  import opened Placement
  import opened Topology
  import opened LibraryState
  import opened Transfers
  import opened Batches
  import opened Stretches
  import opened Protocol
  import opened Interleaving

  // ---- events that leave drives alone

  /** The cartridges in drives are the ones that were, less the forgotten ones. */
  ghost predicate SameLoaded(w: Where, w1: Where) {
    forall v :: v in w1 ==> (SitsInDrive(w1[v]) <==> v in w && SitsInDrive(w[v]))
  }

  lemma AvoidingKeepsLoaded(w: Where, e: Event)
    requires Legal(w, e) && AvoidsDrives(e)
    ensures SameLoaded(w, Apply(w, e))
  {
  }

  lemma {:induction false} AllAvoidingKeepLoaded(w: Where, events: seq<Event>)
    requires AllLegal(w, events) && forall e :: e in events ==> AvoidsDrives(e)
    requires forall v: Cartridge :: Created(v) in events ==> v !in w
    ensures SameLoaded(w, Replay(w, events)) && Stays(w, Replay(w, events), events)
  {
    if events != [] {
      var init, e := events[..|events| - 1], events[|events| - 1];
      AllAvoidingKeepLoaded(w, init);
      AvoidingKeepsLoaded(Replay(w, init), e);
    }
  }

  /** Every cartridge afterwards was there before or was created. */
  ghost predicate Stays(w: Where, w1: Where, events: seq<Event>) {
    forall v :: v in w1 ==> v in w || Created(v) in events
  }

  // ---- tapes

  /** Only cleaning tapes are ever in use for cleaning or expired. */
  ghost predicate OnlyCleaning(vols: seq<Volume>) {
    forall v :: 0 <= v < |vols| && vols[v].state in {InUse, Expired} ==> vols[v].cleaning
  }

  /** A tape in use for cleaning sits in a drive. */
  ghost predicate InUseLoaded(vols: seq<Volume>, w: Where) {
    forall v :: v in w && v < |vols| && vols[v].state == InUse ==> SitsInDrive(w[v])
  }

  /** Old tapes are untouched; new ones are unused and neither in use nor expired. */
  ghost predicate Extends(vols: seq<Volume>, vols1: seq<Volume>) {
    && |vols| <= |vols1| && (forall v :: 0 <= v < |vols| ==> vols1[v] == vols[v])
    && forall v :: |vols| <= v < |vols1| ==> vols1[v].uses == 0 && vols1[v].state in {Unset, Available}
  }

  lemma BeginExtends(l: Lib, call: Call)
    ensures Extends(l.vols, Begin(l, call).lib.vols)
  {
    hide Rebuild, Shift, Get, Exists, Incompatible, InScope, AnyConflict, Route, Taken, Barcode.NextAvailable;
  }

  /** No tape forgets what it is, is used less, or comes back from expiry. */
  ghost predicate Ages(vols: seq<Volume>, vols1: seq<Volume>) {
    |vols| <= |vols1| && forall v :: 0 <= v < |vols| ==> AgesTo(vols[v], vols1[v])
  }

  ghost predicate AgesTo(a: Volume, b: Volume) {
    b.cleaning == a.cleaning && b.barcode == a.barcode && b.tapeSet == a.tapeSet && b.uses >= a.uses
        && b.loads >= a.loads
    && (a.state == Expired ==> b.state == Expired)
  }

  lemma CommitAges(l: Lib, call: Call, v: Cartridge, cleaning: bool)
    requires Ready(l, call, Travel(v, 0, cleaning))
    ensures Ages(l.vols, Commit(l, call, v, cleaning).lib.vols)
  {
    hide Shift, Get, Seat, Exists, MisusesDrive;
  }

  lemma StretchAges(l: Lib, call: Call, stage: Stage)
    requires Ready(l, call, stage)
    ensures Ages(l.vols, Exec(l, call, stage).lib.vols)
  {
    hide Begin, Commit, Shift, Get, Seat, CloseBatch, EjectPlace, Exists, MisusesDrive;
    match stage {
      case Start => BeginExtends(l, call);
      case Travel(v, left, cleaning) => if left == 0 { CommitAges(l, call, v, cleaning); }
      case _ =>
    }
  }

  lemma StepAges(sys: Sys, w0: Where, step: Step)
    requires Consistent(sys, w0)
    ensures Ages(sys.lib.vols, Do(sys, step).lib.vols)
  {
    hide Exec, HomeAfter, Ready, Locked, Refined;
    match step {
      case Spawn(call) =>
      case Advance(t) =>
        if Enabled(sys, t) && sys.threads[t].pc.Running? {
          assert ThreadReady(sys.lib, sys.threads[t]);
          StretchAges(sys.lib, sys.threads[t].call, sys.threads[t].pc.stage);
        }
    }
  }

  /** Expired is absorbing in every interleaving, whatever the settings do. */
  lemma {:induction false} ExpiredIsAbsorbing(sys: Sys, w0: Where, steps: seq<Step>)
    requires Consistent(sys, w0)
    ensures Ages(sys.lib.vols, Run(sys, steps).lib.vols)
  {
    hide Do, Consistent;
    if steps != [] {
      var init := steps[..|steps| - 1];
      ExpiredIsAbsorbing(sys, w0, init);
      RunKeepsConsistent(sys, w0, init);
      StepAges(Run(sys, init), w0, steps[|steps| - 1]);
    }
  }

  // ---- in use means in a drive

  ghost predicate TapesSound(vols: seq<Volume>, w: Where) {
    OnlyCleaning(vols) && InUseLoaded(vols, w)
  }

  lemma KeptTapesSound(vols: seq<Volume>, vols1: seq<Volume>, w: Where, events: seq<Event>)
    requires TapesSound(vols, w) && Extends(vols, vols1) && AllLegal(w, events)
    requires forall e :: e in events ==> AvoidsDrives(e)
    requires forall v: Cartridge :: Created(v) in events ==> v >= |vols|
    requires forall v :: v in w ==> v < |vols|
    ensures TapesSound(vols1, Replay(w, events))
  {
    AllAvoidingKeepLoaded(w, events);
    var w1 := Replay(w, events);
    forall v | v in w1 && v < |vols1| && vols1[v].state == InUse ensures SitsInDrive(w1[v]) {
      assert v < |vols|;
      assert v in w;
    }
  }

  lemma BeginCreatesFresh(l: Lib, call: Call)
    ensures forall v: Cartridge :: Created(v) in Begin(l, call).events ==> v >= |l.vols|
  {
    hide Rebuild, Shift, Get, Exists, Incompatible, InScope, AnyConflict, Route, Taken, Barcode.NextAvailable;
  }

  lemma BeginTapesSound(l: Lib, w: Where, call: Call)
    requires Placed(l, w) && !MisusesDrive(call) && TapesSound(l.vols, w)
    ensures TapesSound(Begin(l, call).lib.vols, Replay(w, Begin(l, call).events))
  {
    hide Begin, Represents, TapesSound, Extends;
    BeginSound(l, w, call);
    BeginAvoidsDrives(l, call);
    BeginExtends(l, call);
    BeginCreatesFresh(l, call);
    KeptTapesSound(l.vols, Begin(l, call).lib.vols, w, Begin(l, call).events);
  }

  lemma CloseTapesSound(l: Lib, w: Where, door: Door, actions: seq<DoorAction>)
    requires Placed(l, w) && TapesSound(l.vols, w)
    ensures TapesSound(CloseCommit(l, door, actions).lib.vols, Replay(w, CloseCommit(l, door, actions).events))
  {
    hide Represents, TapesSound, CloseBatch;
    var seg := CloseCommit(l, door, actions);
    CloseSound(l, w, door, actions);
    CloseAvoidsDrives(l, w, door, actions);
    CloseCreatesNothing(l, w, door, actions);
    KeptTapesSound(l.vols, seg.lib.vols, w, seg.events);
  }

  lemma CloseCreatesNothing(l: Lib, w: Where, door: Door, actions: seq<DoorAction>)
    requires Placed(l, w)
    ensures forall e :: e in CloseCommit(l, door, actions).events ==> e.Transferred?
  {
    hide CloseBatch, Represents;
    var b := CloseBatch(l.vols, door, l.store, actions);
    if b.Accepted? {
      BatchTransfers(l.vols, door, l.store, w, actions);
      forall i | 0 <= i < |b.events| ensures b.events[i].Transferred? {
        assert MatchesAction(l.vols, door, actions[i], b.events[i]);
      }
    }
  }

  lemma CommitTapesSound(l: Lib, w: Where, call: Call, v: Cartridge, cleaning: bool)
    requires Placed(l, w) && Ready(l, call, Travel(v, 0, cleaning)) && TapesSound(l.vols, w)
    ensures TapesSound(Commit(l, call, v, cleaning).lib.vols, Replay(w, Commit(l, call, v, cleaning).events))
  {
    hide Shift, Seat;
    var seg := Commit(l, call, v, cleaning);
    NothingReplayed(w);
    if |seg.events| == 1 {
      ReplayOne(w, seg.events[0]);
      HoldingSource(l, w, call, v, cleaning);
    }
  }

  /** A commit's transfer starts where its tape is. */
  lemma HoldingSource(l: Lib, w: Where, call: Call, v: Cartridge, cleaning: bool)
    requires Placed(l, w) && Ready(l, call, Travel(v, 0, cleaning)) && |Commit(l, call, v, cleaning).events| == 1
    ensures var e := Commit(l, call, v, cleaning).events[0];
            e.Transferred? && e.v == v && v in w && w[v] == e.src && v < |l.vols|
  {
    var e := Commit(l, call, v, cleaning).events[0];
    assert Holds(l.store, e.src, v);
  }

  /** A tape that washes is a cleaning tape. */
  ghost predicate Washes(l: Lib, stage: Stage) {
    match stage
    case Washing(v) => v < |l.vols| && l.vols[v].cleaning
    case Ejecting(v, _, _) => v < |l.vols| && l.vols[v].cleaning
    case _ => true
  }

  lemma EjectTapesSound(l: Lib, w: Where, i: int, v: Cartridge, origin: Option<Ref>)
    requires Placed(l, w) && TapesSound(l.vols, w) && v < |l.vols| && l.vols[v].cleaning
    requires Get(l.store, DriveRef(i)) == Some(v)
    ensures TapesSound(EjectCommit(l, i, v, origin).lib.vols, Replay(w, EjectCommit(l, i, v, origin).events))
  {
    hide Seat, Shift;
    assert Holds(l.store, At(DriveRef(i)), v);
    ReplayOne(w, EjectCommit(l, i, v, origin).events[0]);
  }

  lemma StretchTapesSound(l: Lib, w: Where, call: Call, stage: Stage)
    requires Placed(l, w) && Ready(l, call, stage) && TapesSound(l.vols, w) && Washes(l, stage)
    ensures TapesSound(Exec(l, call, stage).lib.vols, Replay(w, Exec(l, call, stage).events))
  {
    hide Begin, Commit, CloseCommit, WashDone, EjectCommit, TapesSound, Placed, Replay;
    NothingReplayed(w);
    ReadyFits(l, call, stage);
    match stage {
      case Start => BeginTapesSound(l, w, call);
      case Travel(v, left, cleaning) => if left == 0 { CommitTapesSound(l, w, call, v, cleaning); }
      case Washing(v) => WashedTapesSound(l, w, call.drive, v);
      case Ejecting(v, origin, left) => if left == 0 { EjectTapesSound(l, w, call.drive, v, origin); }
      case DoorMoving => if call.CloseDoor? { CloseTapesSound(l, w, call.door, call.actions); }
      case Scanning(_) =>
    }
  }

  lemma WashedTapesSound(l: Lib, w: Where, i: int, v: Cartridge)
    requires Placed(l, w) && TapesSound(l.vols, w) && v < |l.vols| && l.vols[v].cleaning
    ensures TapesSound(WashDone(l, i, v).lib.vols, Replay(w, WashDone(l, i, v).events))
  {
    hide Seat;
    NothingReplayed(w);
  }

  ghost predicate NextWashes(seg: Seg) {
    match seg.next
    case Sleep(later) => Washes(seg.lib, later)
    case Drift(later) => Washes(seg.lib, later)
    case Return(_) => true
  }

  lemma BeginWashes(l: Lib, call: Call)
    ensures NextWashes(Begin(l, call))
  {
    hide Shift, Get, Exists, Rebuild, Incompatible, InScope, AnyConflict, Taken, Barcode.NextAvailable, Create,
      FindBarcode;
  }

  lemma CommitWashes(l: Lib, call: Call, v: Cartridge, cleaning: bool)
    requires Ready(l, call, Travel(v, 0, cleaning))
    ensures NextWashes(Commit(l, call, v, cleaning))
  {
    hide Shift, Get, Seat, Exists, MisusesDrive;
  }

  lemma StretchWashes(l: Lib, call: Call, stage: Stage)
    requires Ready(l, call, stage) && Washes(l, stage)
    ensures NextWashes(Exec(l, call, stage))
  {
    hide Begin, Commit, Shift, Get, Seat, CloseBatch, EjectPlace, Exists, MisusesDrive;
    match stage {
      case Start => BeginWashes(l, call);
      case Travel(v, left, cleaning) => if left == 0 { CommitWashes(l, call, v, cleaning); }
      case _ =>
    }
  }

  /** The stage a thread is at, if it is still under way. */
  function StageOf(th: Thread): Option<Stage> {
    match th.pc
    case WaitOp(stage) => Some(stage)
    case WaitMu(stage) => Some(stage)
    case Running(stage) => Some(stage)
    case Releasing(Again(stage)) => Some(stage)
    case _ => None
  }

  ghost predicate ThreadWashes(l: Lib, th: Thread) {
    StageOf(th).Some? ==> Washes(l, StageOf(th).value)
  }

  lemma WashesAges(l: Lib, m: Lib, stage: Stage)
    requires Washes(l, stage) && Ages(l.vols, m.vols)
    ensures Washes(m, stage)
  {
    match stage {
      case Washing(v) => assert AgesTo(l.vols[v], m.vols[v]);
      case Ejecting(v, _, _) => assert AgesTo(l.vols[v], m.vols[v]);
      case _ =>
    }
  }

  ghost predicate Cleaned(sys: Sys, w0: Where) {
    && TapesSound(sys.lib.vols, Replay(w0, sys.history))
    && forall t :: 0 <= t < |sys.threads| ==> ThreadWashes(sys.lib, sys.threads[t])
  }

  lemma StepKeepsCleaned(sys: Sys, w0: Where, step: Step)
    requires Consistent(sys, w0) && Cleaned(sys, w0)
    ensures Cleaned(Do(sys, step), w0)
  {
    hide Exec, HomeAfter, Ready, Locked, AllLegal, Placed, Washes, TapesSound, Replay, Ages;
    match step {
      case Spawn(call) => StartWashes(sys.lib);
      case Advance(t) =>
        if Enabled(sys, t) {
          var th := sys.threads[t];
          assert ThreadReady(sys.lib, th) && ThreadWashes(sys.lib, th);
          if th.pc.Running? {
            var seg := Exec(sys.lib, th.call, th.pc.stage);
            StretchTapesSound(sys.lib, Replay(w0, sys.history), th.call, th.pc.stage);
            ReplayAppend(w0, sys.history, seg.events);
            StretchWashes(sys.lib, th.call, th.pc.stage);
            StretchAges(sys.lib, th.call, th.pc.stage);
            forall u | 0 <= u < |sys.threads| && StageOf(sys.threads[u]).Some?
              ensures Washes(seg.lib, StageOf(sys.threads[u]).value)
            {
              assert ThreadWashes(sys.lib, sys.threads[u]);
              WashesAges(sys.lib, seg.lib, StageOf(sys.threads[u]).value);
            }
          }
        }
    }
  }

  lemma StartWashes(l: Lib)
    ensures Washes(l, Start)
  {
  }

  lemma {:induction false} RunKeepsCleaned(sys: Sys, w0: Where, steps: seq<Step>)
    requires Consistent(sys, w0) && Cleaned(sys, w0)
    ensures Cleaned(Run(sys, steps), w0) && Consistent(Run(sys, steps), w0)
  {
    hide Do, Consistent, Cleaned;
    if steps != [] {
      RunKeepsCleaned(sys, w0, steps[..|steps| - 1]);
      StepKeepsCleaned(Run(sys, steps[..|steps| - 1]), w0, steps[|steps| - 1]);
      StepKeepsConsistent(Run(sys, steps[..|steps| - 1]), w0, steps[|steps| - 1]);
    }
  }

  /** In every interleaving, a tracked tape that is in use for cleaning sits in a drive. */
  lemma InUseSitsInDrive(sys: Sys, w0: Where, steps: seq<Step>, p: Place, v: Cartridge)
    requires Initial(sys, w0) && TapesSound(sys.lib.vols, w0)
    requires Holds(Run(sys, steps).lib.store, p, v) && VolOf(Run(sys, steps).lib, v).state == InUse
    ensures SitsInDrive(p) && VolOf(Run(sys, steps).lib, v).cleaning
  {
    hide Run;
    InitialIsConsistent(sys, w0);
    NothingReplayed(w0);
    RunKeepsCleaned(sys, w0, steps);
  }

  // ---- the use count in robot mode

  predicate Robot(c: Cleaning) {
    c.enabled && c.robot && c.maxUses > 0
  }

  /** A tape is expired exactly when its use count has reached the maximum, and never exceeds it. */
  ghost predicate Counted(vols: seq<Volume>, max: int) {
    forall v :: 0 <= v < |vols| ==> CountedTape(vols[v], max)
  }

  predicate CountedTape(vol: Volume, max: int) {
    vol.uses <= max && (vol.state == Expired <==> vol.uses == max)
  }

  predicate KeepsCleaning(call: Call, c: Cleaning) {
    match call
    case SetCleaning(c1) => c1 == c
    case Reconfigure(config) => config.settings.cleaning == c
    case _ => true
  }

  /** No drive holds an expired tape, except the one being ejected and those spent from the start. */
  ghost predicate LoadedFresh(vols: seq<Volume>, w: Where, ejecting: Option<Cartridge>, spent: set<Cartridge>) {
    forall v :: v in w && v < |vols| && SitsInDrive(w[v]) && vols[v].state == Expired ==>
      ejecting == Some(v) || v in spent
  }

  function EjectOf(stage: Stage): Option<Cartridge> {
    if stage.Ejecting? then Some(stage.v) else None
  }

  function EjectNext(next: Next): Option<Cartridge> {
    if next.Sleep? then EjectOf(next.stage) else None
  }

  /** A load under way knows whether its tape is a cleaning tape. */
  ghost predicate Knows(l: Lib, call: Call, stage: Stage) {
    call.Load? && stage.Travel? ==> stage.v < |l.vols| && stage.cleaning == l.vols[stage.v].cleaning
  }

  lemma ExtendsCounted(vols: seq<Volume>, vols1: seq<Volume>, max: int)
    requires Extends(vols, vols1) && Counted(vols, max) && max > 0
    ensures Counted(vols1, max)
  {
  }

  lemma ExtendsFresh(vols: seq<Volume>, vols1: seq<Volume>, w: Where, events: seq<Event>, ejecting: Option<Cartridge>,
                     spent: set<Cartridge>)
    requires LoadedFresh(vols, w, ejecting, spent) && Extends(vols, vols1) && AllLegal(w, events)
    requires forall e :: e in events ==> AvoidsDrives(e)
    requires forall v: Cartridge :: Created(v) in events ==> v >= |vols|
    requires forall v :: v in w ==> v < |vols|
    ensures LoadedFresh(vols1, Replay(w, events), ejecting, spent)
  {
    AllAvoidingKeepLoaded(w, events);
  }

  lemma BeginFresh(l: Lib, w: Where, call: Call, c: Cleaning, ejecting: Option<Cartridge>, spent: set<Cartridge>)
    requires Placed(l, w) && !MisusesDrive(call) && LoadedFresh(l.vols, w, ejecting, spent)
    requires Counted(l.vols, c.maxUses) && c.maxUses > 0
    ensures LoadedFresh(Begin(l, call).lib.vols, Replay(w, Begin(l, call).events), ejecting, spent)
    ensures Counted(Begin(l, call).lib.vols, c.maxUses)
  {
    hide Begin, Represents, Extends, LoadedFresh, Counted;
    BeginSound(l, w, call);
    BeginAvoidsDrives(l, call);
    BeginExtends(l, call);
    BeginCreatesFresh(l, call);
    ExtendsFresh(l.vols, Begin(l, call).lib.vols, w, Begin(l, call).events, ejecting, spent);
    ExtendsCounted(l.vols, Begin(l, call).lib.vols, c.maxUses);
  }

  lemma BeginSettings(l: Lib, call: Call, c: Cleaning)
    requires l.settings.cleaning == c && KeepsCleaning(call, c)
    ensures Begin(l, call).lib.settings.cleaning == c
  {
    hide Rebuild, Shift, Get, Exists, Incompatible, InScope, AnyConflict, Route, Taken, Barcode.NextAvailable, VolOf,
      FindBarcode;
  }

  lemma BeginKnows(l: Lib, w: Where, call: Call, c: Cleaning)
    requires Placed(l, w) && l.settings.cleaning == c && c.enabled
    ensures Begin(l, call).next.Sleep? ==>
              Knows(Begin(l, call).lib, call, Begin(l, call).next.stage) && !Begin(l, call).next.stage.Ejecting?
  {
    hide Rebuild, Shift, Exists, Incompatible, InScope, AnyConflict, Route, Taken, Barcode.NextAvailable, Create,
      FindBarcode, Placed, Get;
    match call {
      case Load(from, _, _) => HeldIsKnown(l, w, from);
      case _ =>
    }
  }

  lemma CommitFresh(l: Lib, w: Where, call: Call, v: Cartridge, cleaning: bool, c: Cleaning, spent: set<Cartridge>)
    requires Placed(l, w) && Ready(l, call, Travel(v, 0, cleaning)) && OnlyCleaning(l.vols)
             && Counted(l.vols, c.maxUses)
    requires Knows(l, call, Travel(v, 0, cleaning)) && LoadedFresh(l.vols, w, None, spent)
    ensures var seg := Commit(l, call, v, cleaning);
            Counted(seg.lib.vols, c.maxUses) && LoadedFresh(seg.lib.vols, Replay(w, seg.events), None, spent)
  {
    hide Shift, Seat;
    var seg := Commit(l, call, v, cleaning);
    NothingReplayed(w);
    if |seg.events| == 1 {
      ReplayOne(w, seg.events[0]);
      HoldingSource(l, w, call, v, cleaning);
    }
  }

  /** The tape that wakes up has not expired meanwhile, so counting its use never overshoots. */
  lemma WashFresh(l: Lib, w: Where, i: int, v: Cartridge, c: Cleaning, spent: set<Cartridge>)
    requires Placed(l, w) && Robot(c) && l.settings.cleaning == c && Counted(l.vols, c.maxUses)
             && LoadedFresh(l.vols, w, None, spent)
    requires v !in spent
    ensures var seg := WashDone(l, i, v);
            && Counted(seg.lib.vols, c.maxUses)
            && LoadedFresh(seg.lib.vols, Replay(w, seg.events), EjectNext(seg.next), spent)
  {
    hide Seat;
    NothingReplayed(w);
    if Get(l.store, DriveRef(i)) == Some(v) {
      assert Holds(l.store, At(DriveRef(i)), v);
      assert CountedTape(l.vols[v], c.maxUses);
      assert CountedTape(Used(c, l.vols[v]), c.maxUses);
    }
  }

  lemma EjectFresh(l: Lib, w: Where, i: int, v: Cartridge, origin: Option<Ref>, c: Cleaning, spent: set<Cartridge>)
    requires Placed(l, w) && Counted(l.vols, c.maxUses) && LoadedFresh(l.vols, w, Some(v), spent)
    requires Get(l.store, DriveRef(i)) == Some(v) && (origin.Some? ==> !origin.value.DriveRef?)
    ensures var seg := EjectCommit(l, i, v, origin);
            Counted(seg.lib.vols, c.maxUses) && LoadedFresh(seg.lib.vols, Replay(w, seg.events), None, spent)
  {
    hide Seat, Shift;
    assert Holds(l.store, At(DriveRef(i)), v);
    ReplayOne(w, EjectCommit(l, i, v, origin).events[0]);
  }

  lemma CloseFresh(l: Lib, w: Where, door: Door, actions: seq<DoorAction>, c: Cleaning, spent: set<Cartridge>)
    requires Placed(l, w) && Counted(l.vols, c.maxUses) && LoadedFresh(l.vols, w, None, spent)
    ensures var seg := CloseCommit(l, door, actions);
            Counted(seg.lib.vols, c.maxUses) && LoadedFresh(seg.lib.vols, Replay(w, seg.events), None, spent)
  {
    hide CloseBatch, Represents, LoadedFresh, Counted;
    var seg := CloseCommit(l, door, actions);
    CloseSound(l, w, door, actions);
    CloseAvoidsDrives(l, w, door, actions);
    CloseCreatesNothing(l, w, door, actions);
    ExtendsFresh(l.vols, seg.lib.vols, w, seg.events, None, spent);
  }

  lemma StretchFresh(l: Lib, w: Where, call: Call, stage: Stage, c: Cleaning, spent: set<Cartridge>)
    requires Placed(l, w) && Ready(l, call, stage) && OnlyCleaning(l.vols) && Counted(l.vols, c.maxUses) && Robot(c)
    requires l.settings.cleaning == c && Knows(l, call, stage) && LoadedFresh(l.vols, w, EjectOf(stage), spent)
    requires stage.Washing? ==> stage.v !in spent
    ensures var seg := Exec(l, call, stage);
            && Counted(seg.lib.vols, c.maxUses)
            && LoadedFresh(seg.lib.vols, Replay(w, seg.events), EjectNext(seg.next), spent)
  {
    hide Begin, Commit, CloseCommit, WashDone, EjectCommit, Counted, LoadedFresh, Placed, OnlyCleaning;
    NothingReplayed(w);
    ReadyFits(l, call, stage);
    match stage {
      case Start =>
        BeginFresh(l, w, call, c, None, spent);
        BeginKnows(l, w, call, c);
      case Travel(v, left, cleaning) =>
        if left == 0 {
          CommitFresh(l, w, call, v, cleaning, c, spent);
          CommitNeverSleeps(l, call, v, cleaning);
        }
      case Washing(v) => WashFresh(l, w, call.drive, v, c, spent);
      case Ejecting(v, origin, left) =>
        if left == 0 {
          EjectFresh(l, w, call.drive, v, origin, c, spent);
          EjectReturns(l, call.drive, v, origin);
        }
      case DoorMoving =>
        if call.CloseDoor? {
          CloseFresh(l, w, call.door, call.actions, c, spent);
          CloseScansOrReturns(l, call.door, call.actions);
        }
      case Scanning(_) =>
    }
  }

  lemma CommitNeverSleeps(l: Lib, call: Call, v: Cartridge, cleaning: bool)
    ensures !Commit(l, call, v, cleaning).next.Sleep?
  {
  }

  lemma EjectReturns(l: Lib, i: int, v: Cartridge, origin: Option<Ref>)
    ensures EjectCommit(l, i, v, origin).next == Return(Ok)
  {
  }

  lemma StretchKnows(l: Lib, w: Where, call: Call, stage: Stage, c: Cleaning)
    requires Placed(l, w) && Ready(l, call, stage) && Knows(l, call, stage)
    requires l.settings.cleaning == c && c.enabled && KeepsCleaning(call, c)
    ensures Exec(l, call, stage).lib.settings.cleaning == c
    ensures Exec(l, call, stage).next.Sleep? ==> Knows(Exec(l, call, stage).lib, call, Exec(l, call, stage).next.stage)
  {
    hide Begin, Shift, Seat, Get, CloseBatch, EjectPlace, Placed, Ready;
    if stage == Start {
      BeginKnows(l, w, call, c);
      BeginSettings(l, call, c);
    }
  }

  // ---- where the meter can be beaten

  /** A wake-up keeps a tape within its maximum exactly when the tape has not expired by then. */
  lemma WashMeters(l: Lib, i: int, v: Cartridge)
    requires Get(l.store, DriveRef(i)) == Some(v) && v < |l.vols| && l.settings.cleaning.maxUses > 0
    requires CountedTape(l.vols[v], l.settings.cleaning.maxUses)
    ensures CountedTape(WashDone(l, i, v).lib.vols[v], l.settings.cleaning.maxUses) <==> l.vols[v].state != Expired
  {
    hide Seat, Get;
  }

  /** A wake-up that finds its tape counts exactly one use, of that tape only, and resets the drive's
      mounts; one that does not find it changes nothing. In robot mode it goes on to eject the tape
      towards the drive's Origin as it is now. */
  lemma WashCountsOnce(l: Lib, i: int, v: Cartridge)
    requires v < |l.vols|
    ensures var seg := WashDone(l, i, v);
            if Get(l.store, DriveRef(i)) != Some(v) then seg.lib == l && seg.next == Return(Ok)
            else
              && |seg.lib.vols| == |l.vols|
              && seg.lib.vols[v] == l.vols[v].(uses := l.vols[v].uses + 1, state := seg.lib.vols[v].state)
              && (seg.lib.vols[v].state != l.vols[v].state ==> seg.lib.vols[v].state == Expired)
              && (0 < l.settings.cleaning.maxUses <= l.vols[v].uses + 1 ==> seg.lib.vols[v].state == Expired)
              && (l.settings.cleaning.maxUses <= 0 || l.vols[v].uses + 1 < l.settings.cleaning.maxUses ==>
                    seg.lib.vols[v].state == l.vols[v].state)
              && (forall u :: 0 <= u < |l.vols| && u != v ==> seg.lib.vols[u] == l.vols[u])
              && MountsOf(seg.lib.store, i) == 0 && SameContents(l.store, seg.lib.store)
              && seg.next
                 == if l.settings.cleaning.robot then Sleep(Ejecting(v, OriginAt(l.store, i), 2)) else Return(Ok)
  {
    SeatSameContents(l.store, i, OriginAt(l.store, i), 0);
  }

  /** The eject empties the drive and brings the tape back to its Origin if that exists and is empty,
      otherwise outside; the tape is available again unless it has expired. */
  lemma EjectReturnsHome(l: Lib, w: Where, i: int, v: Cartridge, origin: Option<Ref>)
    requires Placed(l, w) && Get(l.store, DriveRef(i)) == Some(v) && (origin.Some? ==> !origin.value.DriveRef?)
    ensures var seg := EjectCommit(l, i, v, origin);
            && Get(seg.lib.store, DriveRef(i)) == None && OriginAt(seg.lib.store, i) == None
            && (if origin.Some? && Exists(l.store, origin.value) && Get(l.store, origin.value) == None
                then Get(seg.lib.store, origin.value) == Some(v) else v in seg.lib.store.outside)
            && v < |seg.lib.vols|
            && seg.lib.vols[v].state == if l.vols[v].state == Expired then Expired else Available
  {
    hide Shift, Seat, AllLegal, Replay;
    var seg := EjectCommit(l, i, v, origin);
    var dst := EjectPlace(l.store, origin);
    assert Holds(l.store, At(DriveRef(i)), v);
    RepresentedIsUnique(l.store, w);
    ShiftMoves(l.store, v, At(DriveRef(i)), dst);
    var t := Shift(l.store, v, At(DriveRef(i)), dst);
    SeatSameContents(t, i, None, MountsOf(l.store, i));
    SeatClears(t, i, MountsOf(l.store, i));
    assert Holds(t, dst, v);
    assert forall x :: Holds(l.store, At(DriveRef(i)), x) ==> x == v;
    assert forall x :: !Holds(t, At(DriveRef(i)), x);
    NoneOrHeld(t, DriveRef(i));
  }

  lemma NoneOrHeld(s: Store, r: Ref)
    ensures Get(s, r) == None || exists x :: Holds(s, At(r), x)
  {
    if Get(s, r).Some? {
      assert Holds(s, At(r), Get(s, r).value);
    }
  }

  lemma SeatClears(s: Store, i: int, mounts: nat)
    ensures OriginAt(Seat(s, i, None, mounts), i) == None
  {
  }

  // ---- every robot-mode run

  /** The tape being ejected by the owner of opMu, if any. */
  function Ejected(sys: Sys): Option<Cartridge> {
    match sys.opOwner
    case None => None
    case Some(t) =>
      if t >= |sys.threads| then None
      else match sys.threads[t].pc
           case WaitMu(stage) => EjectOf(stage)
           case Running(stage) => EjectOf(stage)
           case _ => None
  }

  ghost predicate ThreadKnows(l: Lib, th: Thread, c: Cleaning) {
    && KeepsCleaning(th.call, c)
    && (th.pc.WaitMu? || th.pc.Running? ==> Knows(l, th.call, th.pc.stage))
  }

  ghost predicate Metered(sys: Sys, w0: Where, c: Cleaning, spent: set<Cartridge>) {
    && sys.lib.settings.cleaning == c && Counted(sys.lib.vols, c.maxUses)
    && LoadedFresh(sys.lib.vols, Replay(w0, sys.history), Ejected(sys), spent)
    && forall t :: 0 <= t < |sys.threads| ==> ThreadKnows(sys.lib, sys.threads[t], c)
  }

  /** These tapes are expired, and no load is cleaning with one of them. */
  ghost predicate SpentIdle(sys: Sys, spent: set<Cartridge>) {
    && (forall v :: v in spent ==> v < |sys.lib.vols| && sys.lib.vols[v].state == Expired)
    && forall t :: 0 <= t < |sys.threads| ==> IdleSpent(sys.threads[t], spent)
  }

  predicate IdleSpent(th: Thread, spent: set<Cartridge>) {
    StageOf(th).Some? && StageOf(th).value.Washing? ==> StageOf(th).value.v !in spent
  }

  /** A wait for a cleaning starts with a tape that has not expired. */
  lemma WashingStartsFresh(l: Lib, call: Call, stage: Stage)
    requires Ready(l, call, stage) && !stage.Washing?
    ensures match Exec(l, call, stage).next
            case Sleep(later) => !later.Washing?
            case Drift(later) => later.Washing? ==> later.v < |l.vols| && l.vols[later.v].state != Expired
            case Return(_) => true
  {
    hide Begin, Shift, Get, Seat, CloseBatch, EjectPlace, Exists, MisusesDrive;
    if stage == Start {
      BeginDoesNotWash(l, call);
    }
  }

  lemma BeginDoesNotWash(l: Lib, call: Call)
    ensures match Begin(l, call).next
            case Sleep(later) => !later.Washing?
            case Drift(_) => false
            case Return(_) => true
  {
    hide Shift, Get, Exists, Rebuild, Incompatible, InScope, AnyConflict, Taken, Barcode.NextAvailable, Create,
      FindBarcode;
  }

  lemma WashingEnds(l: Lib, call: Call, v: Cartridge)
    ensures match Exec(l, call, Washing(v)).next
            case Sleep(later) => !later.Washing?
            case Drift(_) => false
            case Return(_) => true
  {
  }

  lemma StepKeepsSpent(sys: Sys, w0: Where, step: Step, spent: set<Cartridge>)
    requires Consistent(sys, w0) && SpentIdle(sys, spent)
    ensures SpentIdle(Do(sys, step), spent)
  {
    hide Exec, HomeAfter, Ready, Refined, Locked;
    match step {
      case Spawn(call) =>
      case Advance(t) =>
        if Enabled(sys, t) {
          var th := sys.threads[t];
          assert ThreadReady(sys.lib, th) && IdleSpent(th, spent);
          if th.pc.Running? {
            StretchAges(sys.lib, th.call, th.pc.stage);
            var aged := Exec(sys.lib, th.call, th.pc.stage).lib.vols;
            forall v | v in spent ensures v < |aged| && aged[v].state == Expired {
              assert AgesTo(sys.lib.vols[v], aged[v]);
            }
            if th.pc.stage.Washing? {
              WashingEnds(sys.lib, th.call, th.pc.stage.v);
            } else {
              WashingStartsFresh(sys.lib, th.call, th.pc.stage);
            }
          }
        }
    }
  }

  lemma {:induction false} RunKeepsSpent(sys: Sys, w0: Where, steps: seq<Step>, spent: set<Cartridge>)
    requires Consistent(sys, w0) && SpentIdle(sys, spent)
    ensures SpentIdle(Run(sys, steps), spent)
  {
    hide Do, Consistent, SpentIdle;
    if steps != [] {
      var init := steps[..|steps| - 1];
      RunKeepsSpent(sys, w0, init, spent);
      RunKeepsConsistent(sys, w0, init);
      StepKeepsSpent(Run(sys, init), w0, steps[|steps| - 1], spent);
    }
  }

  predicate StepKeepsSettings(step: Step, c: Cleaning) {
    step.Spawn? ==> KeepsCleaning(step.call, c)
  }

  lemma KnowsAges(l: Lib, m: Lib, call: Call, stage: Stage)
    requires Knows(l, call, stage) && Ages(l.vols, m.vols)
    ensures Knows(m, call, stage)
  {
    if call.Load? && stage.Travel? {
      assert AgesTo(l.vols[stage.v], m.vols[stage.v]);
    }
  }

  lemma StepKeepsMetered(sys: Sys, w0: Where, step: Step, c: Cleaning, spent: set<Cartridge>)
    requires Consistent(sys, w0) && Cleaned(sys, w0) && SpentIdle(sys, spent) && Metered(sys, w0, c, spent)
             && Robot(c) && StepKeepsSettings(step, c)
    ensures Metered(Do(sys, step), w0, c, spent)
  {
    hide Exec, HomeAfter, Ready, AllLegal, Placed, Counted, LoadedFresh, Replay, Knows, Washes, InUseLoaded,
      OnlyCleaning;
    match step {
      case Spawn(call) => StartKnows(sys.lib, call);
      case Advance(t) =>
        if Enabled(sys, t) {
          assert ThreadReady(sys.lib, sys.threads[t]) && ThreadKnows(sys.lib, sys.threads[t], c);
          if sys.threads[t].pc.Running? {
            StretchKeepsMetered(sys, w0, t, c, spent);
          } else {
            LockKeepsMetered(sys, w0, t, c, spent);
          }
        }
    }
  }

  lemma StartKnows(l: Lib, call: Call)
    ensures Knows(l, call, Start)
  {
  }

  /** Taking or giving back a lock changes nothing, and no ejecting thread does either. */
  lemma LockKeepsMetered(sys: Sys, w0: Where, t: nat, c: Cleaning, spent: set<Cartridge>)
    requires Consistent(sys, w0) && Metered(sys, w0, c, spent) && Enabled(sys, t) && !sys.threads[t].pc.Running?
    ensures Metered(Advanced(sys, t), w0, c, spent)
  {
    hide AllLegal, Placed, Counted, LoadedFresh, Replay, Refined, Ready;
    var th := sys.threads[t];
    assert ThreadReady(sys.lib, th) && ThreadKnows(sys.lib, th, c);
    if th.pc.Releasing? {
      assert HoldsOp(th);
    }
    ResumesWithoutTravel(th);
    assert Ejected(Advanced(sys, t)) == Ejected(sys);
  }

  lemma ResumesWithoutTravel(th: Thread)
    ensures th.pc.WaitOp? && Resumable(th.call, th.pc.stage) ==> !th.pc.stage.Travel? && !th.pc.stage.Ejecting?
  {
  }

  lemma StretchKeepsMetered(sys: Sys, w0: Where, t: nat, c: Cleaning, spent: set<Cartridge>)
    requires Consistent(sys, w0) && Cleaned(sys, w0) && SpentIdle(sys, spent) && Metered(sys, w0, c, spent) && Robot(c)
    requires t < |sys.threads| && sys.threads[t].pc.Running?
    ensures Metered(RunStretch(sys, t, sys.threads[t].pc.stage), w0, c, spent)
  {
    hide Exec, HomeAfter, Ready, AllLegal, Placed, Counted, LoadedFresh, Replay, Knows, Washes, InUseLoaded,
      OnlyCleaning, Ages;
    var th, w := sys.threads[t], Replay(w0, sys.history);
    var stage := th.pc.stage;
    var seg := Exec(sys.lib, th.call, stage);
    var sys1 := RunStretch(sys, t, stage);
    assert ThreadReady(sys.lib, th) && ThreadKnows(sys.lib, th, c) && IdleSpent(th, spent);
    ReadyFits(sys.lib, th.call, stage);
    StretchKnows(sys.lib, w, th.call, stage, c);
    StretchAges(sys.lib, th.call, stage);
    ReplayAppend(w0, sys.history, seg.events);
    forall u | 0 <= u < |sys.threads| && u != t ensures ThreadKnows(seg.lib, sys.threads[u], c) {
      assert ThreadKnows(sys.lib, sys.threads[u], c);
      if sys.threads[u].pc.WaitMu? || sys.threads[u].pc.Running? {
        KnowsAges(sys.lib, seg.lib, sys.threads[u].call, sys.threads[u].pc.stage);
      }
    }
    if NeedsArm(th.call) {
      assert HoldsOp(th);
      StretchFresh(sys.lib, w, th.call, stage, c, spent);
      assert Ejected(sys) == EjectOf(stage);
      assert Ejected(sys1) == EjectNext(seg.next);
    } else {
      MuOnlyFresh(sys.lib, w, th.call, c, Ejected(sys), spent);
      assert Ejected(sys1) == Ejected(sys);
    }
  }

  lemma MuOnlyFresh(l: Lib, w: Where, call: Call, c: Cleaning, ejecting: Option<Cartridge>, spent: set<Cartridge>)
    requires Placed(l, w) && !NeedsArm(call) && !MisusesDrive(call) && LoadedFresh(l.vols, w, ejecting, spent)
    requires Counted(l.vols, c.maxUses) && c.maxUses > 0
    ensures var seg := Exec(l, call, Start);
            Counted(seg.lib.vols, c.maxUses) && LoadedFresh(seg.lib.vols, Replay(w, seg.events), ejecting, spent)
    ensures Exec(l, call, Start).next.Return?
  {
    hide Begin;
    BeginFresh(l, w, call, c, ejecting, spent);
    MuOnlyReturns(l, call);
  }

  lemma {:induction false} RunKeepsMetered(sys: Sys, w0: Where, steps: seq<Step>, c: Cleaning, spent: set<Cartridge>)
    requires Consistent(sys, w0) && Cleaned(sys, w0) && SpentIdle(sys, spent) && Metered(sys, w0, c, spent) && Robot(c)
    requires forall i :: 0 <= i < |steps| ==> StepKeepsSettings(steps[i], c)
    ensures Metered(Run(sys, steps), w0, c, spent)
  {
    hide Do, Consistent, Cleaned, Metered;
    if steps != [] {
      var init := steps[..|steps| - 1];
      RunKeepsMetered(sys, w0, init, c, spent);
      RunKeepsCleaned(sys, w0, init);
      RunKeepsSpent(sys, w0, init, spent);
      StepKeepsMetered(Run(sys, init), w0, steps[|steps| - 1], c, spent);
    }
  }

  // ---- every run with cleaning switched off

  /** Nothing of a cleaning is under way. */
  predicate Washless(stage: Stage) {
    !stage.Washing? && !stage.Ejecting? && (stage.Travel? ==> !stage.cleaning)
  }

  predicate NextWashless(next: Next) {
    match next
    case Sleep(stage) => Washless(stage)
    case Drift(_) => false
    case Return(_) => true
  }

  lemma StretchIdle(l: Lib, call: Call, stage: Stage, c: Cleaning)
    requires Ready(l, call, stage) && Washless(stage) && l.settings.cleaning == c && !c.enabled
             && KeepsCleaning(call, c)
    requires Counted(l.vols, c.maxUses) && c.maxUses > 0
    ensures var seg := Exec(l, call, stage);
            seg.lib.settings.cleaning == c && Counted(seg.lib.vols, c.maxUses) && NextWashless(seg.next)
  {
    hide Begin, Shift, Seat, Get, CloseBatch, Counted, Commit;
    match stage {
      case Start =>
        BeginSettings(l, call, c);
        BeginExtends(l, call);
        ExtendsCounted(l.vols, Begin(l, call).lib.vols, c.maxUses);
        BeginWashless(l, call);
      case Travel(v, left, _) => if left == 0 { CommitIdle(l, call, v); }
      case _ =>
    }
  }

  lemma BeginWashless(l: Lib, call: Call)
    requires !l.settings.cleaning.enabled
    ensures NextWashless(Begin(l, call).next)
  {
    hide Rebuild, Shift, Exists, Get, Incompatible, InScope, AnyConflict, Route, Taken, Barcode.NextAvailable,
      Create, FindBarcode;
  }

  lemma CommitIdle(l: Lib, call: Call, v: Cartridge)
    requires Counted(l.vols, l.settings.cleaning.maxUses)
    ensures var seg := Commit(l, call, v, false);
            && seg.lib.settings == l.settings && Counted(seg.lib.vols, l.settings.cleaning.maxUses) && seg.next.Return?
  {
    hide Shift, Seat, Get;
  }

  ghost predicate Idle(sys: Sys, c: Cleaning) {
    && sys.lib.settings.cleaning == c && Counted(sys.lib.vols, c.maxUses)
    && forall t :: 0 <= t < |sys.threads| ==> IdleThread(sys.threads[t], c)
  }

  ghost predicate IdleThread(th: Thread, c: Cleaning) {
    KeepsCleaning(th.call, c) && (StageOf(th).Some? ==> Washless(StageOf(th).value))
  }

  lemma StepKeepsIdle(sys: Sys, w0: Where, step: Step, c: Cleaning)
    requires Consistent(sys, w0) && Idle(sys, c) && !c.enabled && c.maxUses > 0 && StepKeepsSettings(step, c)
    ensures Idle(Do(sys, step), c)
  {
    hide Exec, HomeAfter, Ready, Refined, Locked, Counted, KeepsCleaning;
    match step {
      case Spawn(call) =>
      case Advance(t) =>
        if Enabled(sys, t) {
          var th := sys.threads[t];
          assert ThreadReady(sys.lib, th) && IdleThread(th, c);
          if th.pc.Running? {
            StretchIdle(sys.lib, th.call, th.pc.stage, c);
          }
        }
    }
  }

  lemma {:induction false} RunKeepsIdle(sys: Sys, w0: Where, steps: seq<Step>, c: Cleaning)
    requires Consistent(sys, w0) && Idle(sys, c) && !c.enabled && c.maxUses > 0
    requires forall i :: 0 <= i < |steps| ==> StepKeepsSettings(steps[i], c)
    ensures Idle(Run(sys, steps), c)
  {
    hide Do, Consistent, Idle;
    if steps != [] {
      var init := steps[..|steps| - 1];
      RunKeepsIdle(sys, w0, init, c);
      RunKeepsConsistent(sys, w0, init);
      StepKeepsIdle(Run(sys, init), w0, steps[|steps| - 1], c);
    }
  }

  // ---- the bound

  /** With fixed cleaning settings, in robot mode or with cleaning switched off, no interleaving lets a
      tape exceed its maximum, and a tape is expired exactly when it has reached it, even when it is
      unloaded and loaded again while an earlier load's cleaning wait is still running, and even when the
      run starts with expired tapes left in drives. */
  lemma RobotModeMeters(sys: Sys, w0: Where, steps: seq<Step>, v: Cartridge)
    requires Initial(sys, w0) && TapesSound(sys.lib.vols, w0) && sys.lib.settings.cleaning.maxUses > 0
    requires Counted(sys.lib.vols, sys.lib.settings.cleaning.maxUses)
    requires sys.lib.settings.cleaning.enabled ==> sys.lib.settings.cleaning.robot
    requires forall i :: 0 <= i < |steps| ==> StepKeepsSettings(steps[i], sys.lib.settings.cleaning)
    requires v < |Run(sys, steps).lib.vols|
    ensures var vol, max := Run(sys, steps).lib.vols[v], sys.lib.settings.cleaning.maxUses;
            vol.uses <= max && (vol.state == Expired <==> vol.uses == max)
  {
    hide Run;
    var c := sys.lib.settings.cleaning;
    var spent := set u: Cartridge | 0 <= u < |sys.lib.vols| && sys.lib.vols[u].state == Expired;
    InitialIsConsistent(sys, w0);
    NothingReplayed(w0);
    if c.enabled {
      RunKeepsMetered(sys, w0, steps, c, spent);
    } else {
      RunKeepsIdle(sys, w0, steps, c);
    }
    assert CountedTape(Run(sys, steps).lib.vols[v], c.maxUses);
  }

  // ---- exactly when the bound holds, in any mode

  /** The step wakes a load up that finds its own tape still in the drive, and expired meanwhile. */
  ghost predicate WakesExpired(sys: Sys, step: Step) {
    && step.Advance? && step.thread < |sys.threads|
    && var th := sys.threads[step.thread];
       && th.pc.Running? && th.pc.stage.Washing? && WashesExpired(sys.lib, th.call, th.pc.stage.v)
  }

  ghost predicate WashesExpired(l: Lib, call: Call, v: Cartridge) {
    call.Load? && Get(l.store, DriveRef(call.drive)) == Some(v) && v < |l.vols| && l.vols[v].state == Expired
  }

  /** Some wake-up of the run found its tape expired. */
  ghost predicate SomeWakesExpired(sys: Sys, steps: seq<Step>) {
    exists k: nat :: k < |steps| && WakesExpired(Run(sys, steps[..k]), steps[k])
  }

  ghost predicate Overshot(vols: seq<Volume>, max: int) {
    exists v: nat :: v < |vols| && vols[v].uses > max
  }

  lemma OvershotStays(vols: seq<Volume>, vols1: seq<Volume>, max: int)
    requires Overshot(vols, max) && Ages(vols, vols1)
    ensures Overshot(vols1, max)
  {
    var v: nat :| v < |vols| && vols[v].uses > max;
    assert AgesTo(vols[v], vols1[v]);
  }

  ghost predicate FixedCleaning(sys: Sys, c: Cleaning) {
    sys.lib.settings.cleaning == c && forall t :: 0 <= t < |sys.threads| ==> KeepsCleaning(sys.threads[t].call, c)
  }

  lemma StretchSettings(l: Lib, call: Call, stage: Stage, c: Cleaning)
    requires l.settings.cleaning == c && KeepsCleaning(call, c)
    ensures Exec(l, call, stage).lib.settings.cleaning == c
  {
    hide Begin, Shift, Seat, Get, CloseBatch, EjectPlace;
    if stage == Start {
      BeginSettings(l, call, c);
    }
  }

  /** A wake-up with an expired tape overshoots; every other stretch keeps the count. */
  lemma StretchCounts(l: Lib, call: Call, stage: Stage, c: Cleaning)
    requires Ready(l, call, stage) && l.settings.cleaning == c && c.maxUses > 0 && Counted(l.vols, c.maxUses)
    ensures var vols := Exec(l, call, stage).lib.vols;
            if stage.Washing? && WashesExpired(l, call, stage.v) then Overshot(vols, c.maxUses)
            else Counted(vols, c.maxUses)
  {
    hide Begin, Commit, WashDone, Shift, Seat, Get, CloseBatch, EjectPlace, Counted, Overshot, WashesExpired;
    match stage {
      case Start =>
        BeginExtends(l, call);
        ExtendsCounted(l.vols, Begin(l, call).lib.vols, c.maxUses);
      case Travel(v, left, cleaning) => if left == 0 { CommitCounts(l, call, v, cleaning, c); }
      case Washing(v) => if call.Load? { WashCounts(l, call, v, c); }
      case Ejecting(v, origin, left) => if left == 0 { RestCounts(l, v, c); }
      case _ =>
    }
  }

  lemma CommitCounts(l: Lib, call: Call, v: Cartridge, cleaning: bool, c: Cleaning)
    requires Ready(l, call, Travel(v, 0, cleaning)) && Counted(l.vols, c.maxUses)
    ensures Counted(Commit(l, call, v, cleaning).lib.vols, c.maxUses)
  {
    hide Shift, Seat, Get, Exists, MisusesDrive;
  }

  lemma RestCounts(l: Lib, v: Cartridge, c: Cleaning)
    requires Counted(l.vols, c.maxUses)
    ensures Counted(WithVol(l, v, Rested(VolOf(l, v))).vols, c.maxUses)
  {
  }

  lemma WashCounts(l: Lib, call: Call, v: Cartridge, c: Cleaning)
    requires call.Load? && l.settings.cleaning == c && c.maxUses > 0 && Counted(l.vols, c.maxUses)
    ensures var vols := WashDone(l, call.drive, v).lib.vols;
            if WashesExpired(l, call, v) then Overshot(vols, c.maxUses) else Counted(vols, c.maxUses)
  {
    hide Seat, Get;
    if Get(l.store, DriveRef(call.drive)) == Some(v) && v < |l.vols| {
      assert CountedTape(l.vols[v], c.maxUses);
      var vols := WashDone(l, call.drive, v).lib.vols;
      assert vols == l.vols[v := Used(c, l.vols[v])];
      assert vols[v].uses == l.vols[v].uses + 1;
    }
  }

  lemma StepCounts(sys: Sys, w0: Where, step: Step, c: Cleaning)
    requires Consistent(sys, w0) && FixedCleaning(sys, c) && c.maxUses > 0 && StepKeepsSettings(step, c)
    ensures FixedCleaning(Do(sys, step), c)
    ensures Counted(sys.lib.vols, c.maxUses) ==>
              if WakesExpired(sys, step) then Overshot(Do(sys, step).lib.vols, c.maxUses)
              else Counted(Do(sys, step).lib.vols, c.maxUses)
  {
    hide Exec, HomeAfter, Ready, Refined, Locked, Counted, Overshot, KeepsCleaning, WashesExpired;
    match step {
      case Spawn(call) =>
      case Advance(t) =>
        if Enabled(sys, t) && sys.threads[t].pc.Running? {
          var th := sys.threads[t];
          assert ThreadReady(sys.lib, th) && KeepsCleaning(th.call, c);
          StretchSettings(sys.lib, th.call, th.pc.stage, c);
          if Counted(sys.lib.vols, c.maxUses) {
            StretchCounts(sys.lib, th.call, th.pc.stage, c);
          }
        }
    }
  }

  lemma {:induction false} RunCounts(sys: Sys, w0: Where, steps: seq<Step>, c: Cleaning)
    requires Consistent(sys, w0) && FixedCleaning(sys, c) && c.maxUses > 0 && Counted(sys.lib.vols, c.maxUses)
    requires forall i :: 0 <= i < |steps| ==> StepKeepsSettings(steps[i], c)
    ensures FixedCleaning(Run(sys, steps), c)
    ensures var vols := Run(sys, steps).lib.vols;
            if SomeWakesExpired(sys, steps) then Overshot(vols, c.maxUses) else Counted(vols, c.maxUses)
  {
    hide Do, Consistent, FixedCleaning, Counted, Overshot, WakesExpired, Ages, StepKeepsSettings;
    if steps != [] {
      var n := |steps| - 1;
      var before := Run(sys, steps[..n]);
      RunCounts(sys, w0, steps[..n], c);
      RunKeepsConsistent(sys, w0, steps[..n]);
      StepCounts(before, w0, steps[n], c);
      StepAges(before, w0, steps[n]);
      OneMoreWakes(sys, steps);
      if SomeWakesExpired(sys, steps[..n]) {
        OvershotStays(before.lib.vols, Run(sys, steps).lib.vols, c.maxUses);
      }
    }
  }

  lemma OneMoreWakes(sys: Sys, steps: seq<Step>)
    requires steps != []
    ensures var n := |steps| - 1;
            SomeWakesExpired(sys, steps) <==>
                SomeWakesExpired(sys, steps[..n]) || WakesExpired(Run(sys, steps[..n]), steps[n])
  {
    hide WakesExpired, Run;
    var n := |steps| - 1;
    forall k: nat | k < n ensures steps[..n][..k] == steps[..k] && steps[..n][k] == steps[k] {
    }
    if WakesExpired(Run(sys, steps[..n]), steps[n]) {
      assert n < |steps|;
    }
    if SomeWakesExpired(sys, steps[..n]) {
      var k: nat :| k < n && WakesExpired(Run(sys, steps[..n][..k]), steps[..n][k]);
      assert WakesExpired(Run(sys, steps[..k]), steps[k]);
    }
  }

  /** With fixed cleaning settings, in whatever mode, the tapes of a run are within their maximum, and
      expired exactly at it, exactly when no wake-up of the run found its own tape still in the drive and
      already expired. */
  lemma MeteredExactly(sys: Sys, w0: Where, steps: seq<Step>)
    requires Initial(sys, w0) && sys.lib.settings.cleaning.maxUses > 0
    requires Counted(sys.lib.vols, sys.lib.settings.cleaning.maxUses)
    requires forall i :: 0 <= i < |steps| ==> StepKeepsSettings(steps[i], sys.lib.settings.cleaning)
    ensures Counted(Run(sys, steps).lib.vols, sys.lib.settings.cleaning.maxUses) <==> !SomeWakesExpired(sys, steps)
  {
    hide Run, SomeWakesExpired;
    InitialIsConsistent(sys, w0);
    RunCounts(sys, w0, steps, sys.lib.settings.cleaning);
    OvershotIsNotCounted(Run(sys, steps).lib.vols, sys.lib.settings.cleaning.maxUses);
  }

  lemma OvershotIsNotCounted(vols: seq<Volume>, max: int)
    ensures Overshot(vols, max) ==> !Counted(vols, max)
  {
    if v: nat :| v < |vols| && vols[v].uses > max {
      assert !CountedTape(vols[v], max);
    }
  }
}
