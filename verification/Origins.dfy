/** A drive's Origin, across every interleaving and every rebuild, names the slot its tape came from. */
module Origins {
  import opened Common
  import opened Placement
  import opened Topology
  import opened Rebuilding
  import opened LibraryState
  import opened Transfers
  import opened Batches
  import opened Stretches
  import opened Protocol
  import opened Interleaving

  /** Every Origin that is set resolves to the identity its drive's present tape was loaded from. */
  ghost predicate Named(s: Store, home: map<int, Home>) {
    forall i :: 0 <= i < |s.drives| && s.drives[i].origin.Some? ==> NamedDrive(s, home, i)
  }

  ghost predicate NamedDrive(s: Store, home: map<int, Home>, i: nat)
    requires i < |s.drives| && s.drives[i].origin.Some?
  {
    var r := s.drives[i].origin.value;
    && !r.DriveRef? && Exists(s, r)
    && i in home && s.drives[i].vol == Some(home[i].tape) && IdentityOf(s, r) == home[i].identity
  }

  /** Each Origin was cleared, or stayed with its tape on the same elements. */
  ghost predicate KeepsSeats(s: Store, t: Store) {
    && SameShape(s, t)
    && forall i :: 0 <= i < |s.drives| && t.drives[i].origin.Some? ==>
         t.drives[i].origin == s.drives[i].origin && t.drives[i].vol == s.drives[i].vol
  }

  lemma ShapeIsElements(s: Store, t: Store)
    requires SameShape(s, t)
    ensures SameElements(s, t)
  {
  }

  lemma SeatsStayNamed(s: Store, t: Store, home: map<int, Home>)
    requires Named(s, home) && KeepsSeats(s, t)
    ensures Named(t, home)
  {
    ShapeIsElements(s, t);
    ResolveFollowsElements(s, t);
    forall i | 0 <= i < |t.drives| && t.drives[i].origin.Some? ensures NamedDrive(t, home, i) {
      assert NamedDrive(s, home, i);
    }
  }

  lemma BystanderKeepsSeats(l: Lib, m: Lib)
    requires Bystander(l, m)
    ensures KeepsSeats(l.store, m.store)
  {
  }

  lemma SeatKeepsShape(s: Store, i: int, origin: Option<Ref>, mounts: nat)
    ensures SameShape(s, Seat(s, i, origin, mounts))
  {
  }

  /** Emptying a drive into a slot or onto a list. */
  lemma EmptyingKeepsSeats(s: Store, v: Cartridge, i: int, dst: Place, mounts: nat)
    requires dst.At? ==> !dst.ref.DriveRef?
    ensures KeepsSeats(s, Seat(Shift(s, v, At(DriveRef(i)), dst), i, None, mounts))
  {
    hide SameShape;
    var t := Shift(s, v, At(DriveRef(i)), dst);
    ShiftKeepsShape(s, v, At(DriveRef(i)), dst);
    SeatKeepsShape(t, i, None, mounts);
    ShapeTransitive(s, t, Seat(t, i, None, mounts));
  }

  lemma ShiftKeepsSeats(s: Store, v: Cartridge, src: Place, dst: Place)
    requires src.At? ==> !src.ref.DriveRef?
    requires dst.At? ==> !dst.ref.DriveRef?
    ensures KeepsSeats(s, Shift(s, v, src, dst))
  {
    hide Shift;
    SlotShiftKeepsDrives(s, v, src, dst);
    ShiftKeepsShape(s, v, src, dst);
  }

  lemma LoadNames(l: Lib, home: map<int, Home>, from: Ref, i: int, v: Cartridge, cleaning: bool)
    requires Named(l.store, home) && !from.DriveRef? && Exists(l.store, DriveRef(i)) && Exists(l.store, from)
    ensures var seg := LoadCommit(l, from, i, v, cleaning);
            Named(seg.lib.store, HomeAfter(l.store, seg.events, home))
  {
    hide Put;
    var seg := LoadCommit(l, from, i, v, cleaning);
    if Get(l.store, from) == Some(v) {
      var home1 := home[i := Home(v, IdentityOf(l.store, from))];
      assert HomeAfter(l.store, seg.events, home) == home1;
      LoadedStore(l.store, home, v, from, i, MountsOf(l.store, i) + if cleaning then 0 else 1);
    }
  }

  lemma LoadedStore(s: Store, home: map<int, Home>, v: Cartridge, from: Ref, i: int, mounts: nat)
    requires Named(s, home) && !from.DriveRef? && Exists(s, DriveRef(i)) && Exists(s, from)
    ensures Named(Seat(Shift(s, v, At(from), At(DriveRef(i))), i, Some(from), mounts),
            home[i := Home(v, IdentityOf(s, from))])
  {
    hide SameShape;
    var t := Shift(s, v, At(from), At(DriveRef(i)));
    var u := Seat(t, i, Some(from), mounts);
    var home1 := home[i := Home(v, IdentityOf(s, from))];
    ShiftKeepsShape(s, v, At(from), At(DriveRef(i)));
    SeatKeepsShape(t, i, Some(from), mounts);
    ShapeTransitive(s, t, u);
    ShapeIsElements(s, u);
    ResolveFollowsElements(s, u);
    forall j | 0 <= j < |u.drives| && u.drives[j].origin.Some? ensures NamedDrive(u, home1, j) {
      if j != i {
        assert NamedDrive(s, home, j);
        assert u.drives[j] == s.drives[j];
      }
    }
  }

  lemma RebuildNames(s: Store, c: Layout, home: map<int, Home>)
    requires Named(s, home)
    ensures Named(Rebuild(s, c), home)
  {
    hide IdentityOf, Resolve, Exists;
    var t := Rebuild(s, c);
    ElementsOfRebuild(s, c);
    OriginsSlots(s, home);
    forall i | 0 <= i < |t.drives| && t.drives[i].origin.Some? ensures NamedDrive(t, home, i) {
      RebuildOrigin(s, c, i);
      assert NamedDrive(s, home, i);
      ResolveIs(Build(c), home[i].identity, t.drives[i].origin.value);
      OriginsStaySlots(s, c);
    }
  }

  lemma OriginsSlots(s: Store, home: map<int, Home>)
    requires Named(s, home)
    ensures OriginsAreSlots(s)
  {
    forall i | 0 <= i < |s.drives| && s.drives[i].origin.Some? ensures !s.drives[i].origin.value.DriveRef? {
      assert NamedDrive(s, home, i);
    }
  }

  /** Only a load changes what a drive was loaded with. */
  lemma HomeStays(s: Store, events: seq<Event>, home: map<int, Home>)
    requires forall e :: e in events && e.Transferred? ==> !SitsInDrive(e.dst)
    ensures HomeAfter(s, events, home) == home
  {
  }

  /** Calls other than loads and rebuilds only ever clear Origins. */
  lemma StretchKeepsSeats(l: Lib, w: Where, call: Call, stage: Stage)
    requires Placed(l, w) && Ready(l, call, stage)
    requires !call.Reconfigure? && !(call.Load? && stage.Travel?)
    ensures KeepsSeats(l.store, Exec(l, call, stage).lib.store)
  {
    hide Begin, Shift, Get, Seat, KeepsSeats, ApplyActions, Placed;
    var seg := Exec(l, call, stage);
    SameSeats(l.store);
    match stage {
      case Start => BeginKeepsSeats(l, call);
      case Travel(v, left, cleaning) =>
        match call {
          case Move(from, to, _) => ShiftKeepsSeats(l.store, v, At(from), At(to));
          case Unload(i, to, _) =>
            EmptyingKeepsSeats(l.store, v, i, if Get(l.store, to).Some? then Outside else At(to),
                               if VolOf(l, v).cleaning then 0 else MountsOf(l.store, i));
          case _ =>
        }
      case Washing(v) => ReseatKeepsSeats(l.store, call.drive);
      case Ejecting(v, origin, left) =>
        EmptyingKeepsSeats(l.store, v, call.drive, EjectPlace(l.store, origin), MountsOf(l.store, call.drive));
      case DoorMoving =>
        if call.CloseDoor? {
          CloseKeepsSeats(l, w, call.door, call.actions);
        }
      case Scanning(left) =>
    }
  }

  lemma SameSeats(s: Store)
    ensures KeepsSeats(s, s)
  {
  }

  lemma BeginKeepsSeats(l: Lib, call: Call)
    requires !MisusesDrive(call) && !call.Reconfigure?
    ensures KeepsSeats(l.store, Begin(l, call).lib.store)
  {
    hide Shift, Get, Exists, Incompatible, InScope, AnyConflict, Bystander, KeepsSeats;
    if !NeedsArm(call) {
      MuOnlyIsBystander(l, call);
      BystanderKeepsSeats(l, Begin(l, call).lib);
    } else {
      SameSeats(l.store);
    }
  }

  lemma ReseatKeepsSeats(s: Store, i: int)
    ensures KeepsSeats(s, Seat(s, i, OriginAt(s, i), 0))
  {
  }

  lemma CloseKeepsSeats(l: Lib, w: Where, door: Door, actions: seq<DoorAction>)
    requires Placed(l, w)
    ensures KeepsSeats(l.store, CloseCommit(l, door, actions).lib.store)
  {
    hide ApplyActions, SameShape, Represents;
    var b := CloseBatch(l.vols, door, l.store, actions);
    if b.Accepted? {
      BatchTransfers(l.vols, door, l.store, w, actions);
      ActionsKeepDrives(l.vols, door, l.store, actions);
    } else {
      SameSeats(l.store);
    }
  }

  lemma StretchEntersNoDrive(l: Lib, w: Where, call: Call, stage: Stage)
    requires Placed(l, w) && Ready(l, call, stage) && !(call.Load? && stage.Travel?)
    ensures forall e :: e in Exec(l, call, stage).events && e.Transferred? ==> !SitsInDrive(e.dst)
  {
    hide Begin, Shift, Get, Seat, CloseCommit, Placed, AvoidsDrives;
    match stage {
      case Start => BeginAvoidsDrives(l, call);
      case DoorMoving => if call.CloseDoor? { CloseAvoidsDrives(l, w, call.door, call.actions); }
      case _ =>
    }
    AvoidingEntersNone();
  }

  lemma AvoidingEntersNone()
    ensures forall e: Event :: AvoidsDrives(e) && e.Transferred? ==> !SitsInDrive(e.dst)
  {
  }

  lemma StretchNames(l: Lib, w: Where, home: map<int, Home>, call: Call, stage: Stage)
    requires Placed(l, w) && Named(l.store, home) && Ready(l, call, stage)
    ensures Named(Exec(l, call, stage).lib.store, HomeAfter(l.store, Exec(l, call, stage).events, home))
  {
    hide Begin, Named, KeepsSeats, HomeAfter, Placed, LoadCommit, Exec;
    var seg := Exec(l, call, stage);
    if call.Load? && stage.Travel? {
      LoadStretchNames(l, home, call, stage);
    } else {
      StretchEntersNoDrive(l, w, call, stage);
      HomeStays(l.store, seg.events, home);
      if call.Reconfigure? {
        ReconfigureNames(l, home, call, stage);
      } else {
        StretchKeepsSeats(l, w, call, stage);
        SeatsStayNamed(l.store, seg.lib.store, home);
      }
    }
  }

  lemma LoadStretchNames(l: Lib, home: map<int, Home>, call: Call, stage: Stage)
    requires Named(l.store, home) && Ready(l, call, stage) && call.Load? && stage.Travel?
    ensures Named(Exec(l, call, stage).lib.store, HomeAfter(l.store, Exec(l, call, stage).events, home))
  {
    hide LoadCommit, Named;
    if stage.left == 0 {
      LoadNames(l, home, call.from, call.drive, stage.v, stage.cleaning);
    }
  }

  lemma ReconfigureNames(l: Lib, home: map<int, Home>, call: Call, stage: Stage)
    requires Named(l.store, home) && Ready(l, call, stage) && call.Reconfigure?
    ensures Named(Exec(l, call, stage).lib.store, home)
  {
    hide Rebuild, Named;
    RebuildNames(l.store, call.config.layout, home);
  }

  lemma StepKeepsNamed(sys: Sys, w0: Where, step: Step)
    requires Consistent(sys, w0) && Named(sys.lib.store, sys.home)
    ensures Named(Do(sys, step).lib.store, Do(sys, step).home)
  {
    hide Exec, HomeAfter, Named, Locked;
    match step {
      case Spawn(call) =>
      case Advance(t) =>
        if Enabled(sys, t) && sys.threads[t].pc.Running? {
          assert ThreadReady(sys.lib, sys.threads[t]);
          StretchNames(sys.lib, Replay(w0, sys.history), sys.home, sys.threads[t].call, sys.threads[t].pc.stage);
        }
    }
  }

  lemma {:induction false} RunKeepsNamed(sys: Sys, w0: Where, steps: seq<Step>)
    requires Consistent(sys, w0) && Named(sys.lib.store, sys.home)
    ensures Named(Run(sys, steps).lib.store, Run(sys, steps).home) && Consistent(Run(sys, steps), w0)
  {
    hide Do, Consistent, Named;
    if steps != [] {
      RunKeepsNamed(sys, w0, steps[..|steps| - 1]);
      StepKeepsNamed(Run(sys, steps[..|steps| - 1]), w0, steps[|steps| - 1]);
      StepKeepsConsistent(Run(sys, steps[..|steps| - 1]), w0, steps[|steps| - 1]);
    }
  }

  /** In every run, whatever rebuilds it contains, an Origin that is set leads to an existing slot with
      the identity from which the drive's present tape was loaded. */
  lemma OriginsNameTheirSlots(sys: Sys, w0: Where, steps: seq<Step>, i: nat)
    requires Initial(sys, w0) && Named(sys.lib.store, sys.home)
    requires var s := Run(sys, steps).lib.store; i < |s.drives| && s.drives[i].origin.Some?
    ensures var r := Run(sys, steps);
            var origin := r.lib.store.drives[i].origin.value;
            && Exists(r.lib.store, origin) && i in r.home
            && r.lib.store.drives[i].vol == Some(r.home[i].tape)
            && IdentityOf(r.lib.store, origin) == r.home[i].identity
  {
    hide Run;
    InitialIsConsistent(sys, w0);
    RunKeepsNamed(sys, w0, steps);
    assert NamedDrive(Run(sys, steps).lib.store, Run(sys, steps).home, i);
  }
}
