/**
 * The ECU-flash fence: the decisions of main/flash_fence_logic.c, and the race they settle between
 * a scheduled reboot, a firmware upload (main/config_server.c) and the fast-write codec's start
 * check. Each side raises its own flag first and reads the other side's flag afterwards.
 */
module FlashFence {
  import CanLease
  import LeaseReaper

  datatype Level = Clear | Session | Flashing

  datatype Inputs = Inputs(flashActive: bool, claimRaised: bool, claimExpired: bool, claimOwnerAlive: bool)

  function Eval(i: Inputs): Level {
    if i.flashActive then Flashing
    else if i.claimRaised && (!i.claimExpired || i.claimOwnerAlive) then Session
    else Clear
  }

  /** config_server_flash_fence: the fence is judged on the same snapshot that the lease reaper takes. */
  function FenceInputs(s: LeaseReaper.Snapshot): Inputs {
    Inputs(s.flash, s.claim.active, LeaseReaper.Expired(s.claim, s.now), CanLease.OwnerAlive(s.claim, s.live))
  }

  /**
   * The fence and the reaper never disagree about who owns the bus: on a snapshot that fences
   * anything, the reaper takes nothing down; and a raised claim stops fencing only when it has expired
   * and its owner is gone.
   */
  lemma FencedMeansNoReap(s: LeaseReaper.Snapshot)
    ensures !Eval(FenceInputs(s)).Clear? ==> LeaseReaper.Decide(s) == LeaseReaper.Asleep
    ensures s.claim.active && Eval(FenceInputs(s)).Clear?
      ==> s.claim.deadline != 0 && s.now > s.claim.deadline && !CanLease.OwnerAlive(s.claim, s.live)
  {
  }

  predicate RebootMayFire(l: Level) { !l.Flashing? }

  predicate WriteMayStart(rebootPending: bool, otaActive: bool) { !rebootPending && !otaActive }

  /** A flag that the codec has or has not read yet. */
  datatype Seen = Unread | Read(up: bool)

  /** The codec task. A fast read raises the bit too, but checks nothing: it cannot hurt the ECU. */
  datatype Codec =
    | Idle
    | Checking(reboot: Seen, ota: Seen)
    | Writing
    | Refused
    | Reading

  datatype Upload = NoUpload | FlagUp | Uploading | TurnedAway

  datatype Timer = Waiting | Looked(level: Level)

  /** `starting` counts the tasks that raised s_reboot_pending and have yet to start the timer. */
  datatype Sys = Sys(pending: bool, ota: bool, bit: bool, timerOn: bool, restarted: bool,
                     starting: nat, codec: Codec, upload: Upload, timer: Timer)

  const BOOT := Sys(false, false, false, false, false, 0, Idle, NoUpload, Waiting)

  datatype Action =
    | ScheduleRaise
    | ScheduleStart(ok: bool)
    | TimerLooks(claim: Inputs)
    | TimerActs
    | WriteClaims | WriteReadsReboot | WriteReadsOta | WriteDecides | WriteLeaves | WriteEnds
    | ReadClaims | ReadEnds
    | UploadRaises
    | UploadLooks(claim: Inputs)
    | UploadLeaves
    | UploadFails
    | UploadSucceeds

  /** After a restart nothing of the old boot runs any more. */
  predicate Enabled(s: Sys, a: Action) {
    && !s.restarted
    && match a
       case ScheduleRaise => true
       case ScheduleStart(_) => s.starting > 0
       case TimerLooks(_) => s.timerOn && s.timer.Waiting?
       case TimerActs => s.timer.Looked?
       case WriteClaims => s.codec.Idle? && !s.bit
       case ReadClaims => s.codec.Idle? && !s.bit
       case WriteReadsReboot => s.codec.Checking? && s.codec.reboot.Unread?
       case WriteReadsOta => s.codec.Checking? && s.codec.ota.Unread?
       case WriteDecides => s.codec.Checking? && s.codec.reboot.Read? && s.codec.ota.Read?
       case WriteLeaves => s.codec.Refused?
       case WriteEnds => s.codec.Writing?
       case ReadEnds => s.codec.Reading?
       case UploadRaises => s.upload.NoUpload?
       case UploadLooks(_) => s.upload.FlagUp?
       case UploadLeaves => s.upload.TurnedAway?
       case UploadFails => s.upload.Uploading?
       case UploadSucceeds => s.upload.Uploading?
  }

  /** The level that a snapshot taken now gives, for any state of the bus-claim. */
  function LevelNow(s: Sys, claim: Inputs): Level { Eval(claim.(flashActive := s.bit)) }

  function Do(s: Sys, a: Action): Sys
    requires Enabled(s, a)
  {
    match a
    case ScheduleRaise => s.(pending := true, starting := s.starting + 1)
    case ScheduleStart(ok) =>
      if ok then s.(starting := s.starting - 1, timerOn := true)
      else s.(starting := s.starting - 1, pending := false)
    case TimerLooks(claim) => s.(timer := Looked(LevelNow(s, claim)))
    case TimerActs => s.(timer := Waiting, restarted := RebootMayFire(s.timer.level))
    case WriteClaims => s.(codec := Checking(Unread, Unread), bit := true)
    case WriteReadsReboot => s.(codec := s.codec.(reboot := Read(s.pending)))
    case WriteReadsOta => s.(codec := s.codec.(ota := Read(s.ota)))
    case WriteDecides => s.(codec := if WriteMayStart(s.codec.reboot.up, s.codec.ota.up) then Writing else Refused)
    case WriteLeaves => s.(codec := Idle, bit := false)
    case WriteEnds => s.(codec := Idle, bit := false)
    case ReadClaims => s.(codec := Reading, bit := true)
    case ReadEnds => s.(codec := Idle, bit := false)
    case UploadRaises => s.(upload := FlagUp, ota := true)
    case UploadLooks(claim) => s.(upload := if LevelNow(s, claim).Clear? then Uploading else TurnedAway)
    case UploadLeaves => s.(upload := NoUpload, ota := false)
    case UploadFails => s.(upload := NoUpload, ota := false)
    case UploadSucceeds => s.(upload := NoUpload)
  }

  /** The states after each action of a run, or None when some action was not enabled. */
  datatype Outcome = Stuck | At(s: Sys)

  function After(s: Sys, run: seq<Action>): Outcome {
    if run == [] then At(s)
    else
      var o := After(s, run[..|run| - 1]);
      var a := run[|run| - 1];
      if o.At? && Enabled(o.s, a) then At(Do(o.s, a)) else Stuck
  }

  /** The codec is past the reads it has made with a clear result. */
  predicate PassedReboot(c: Codec) { c.Writing? || (c.Checking? && c.reboot == Read(false)) }
  predicate PassedOta(c: Codec) { c.Writing? || (c.Checking? && c.ota == Read(false)) }

  /** Some task is about to start the timer, or it runs. */
  predicate RebootComing(s: Sys) { s.timerOn || s.starting > 0 }

  /** The flag says exactly whether a reboot is coming. */
  predicate Covered(s: Sys) { s.pending <==> RebootComing(s) }

  predicate Inv(s: Sys) {
    && (s.bit <==> !s.codec.Idle?)
    && Covered(s)
    && (s.timer.Looked? ==> s.timerOn)
    // Whichever side starts second sees the other.
    && (s.timer.Looked? && RebootMayFire(s.timer.level) ==> !PassedReboot(s.codec))
    && (s.restarted ==> !PassedReboot(s.codec))
    && (!s.upload.NoUpload? ==> s.ota)
    && (s.upload.Uploading? ==> !PassedOta(s.codec))
  }

  /** The action is no failed timer start, or one that fails while nobody else has a reboot coming. */
  predicate Harmless(s: Sys, a: Action) {
    a == ScheduleStart(false) ==> !s.timerOn && s.starting == 1
  }

  /** Every action of the run is harmless where it happens. */
  predicate TimerServes(s: Sys, run: seq<Action>)
    requires After(s, run).At?
  {
    run != [] ==>
      TimerServes(s, run[..|run| - 1]) && Harmless(After(s, run[..|run| - 1]).s, run[|run| - 1])
  }

  predicate OfReboot(a: Action) { a.ScheduleRaise? || a.ScheduleStart? || a.TimerLooks? || a.TimerActs? }

  predicate OfUpload(a: Action) {
    a.UploadRaises? || a.UploadLooks? || a.UploadLeaves? || a.UploadFails? || a.UploadSucceeds?
  }

  lemma RebootKeepsInv(s: Sys, a: Action)
    requires Inv(s) && Enabled(s, a) && Harmless(s, a) && OfReboot(a)
    ensures Inv(Do(s, a))
  {
  }

  lemma UploadKeepsInv(s: Sys, a: Action)
    requires Inv(s) && Enabled(s, a) && OfUpload(a)
    ensures Inv(Do(s, a))
  {
  }

  lemma CodecKeepsInv(s: Sys, a: Action)
    requires Inv(s) && Enabled(s, a) && !OfReboot(a) && !OfUpload(a)
    ensures Inv(Do(s, a))
  {
  }

  lemma DoKeepsInv(s: Sys, a: Action)
    requires Inv(s) && Enabled(s, a) && Harmless(s, a)
    ensures Inv(Do(s, a))
  {
    hide Inv, Enabled, Do, Harmless;
    if OfReboot(a) {
      RebootKeepsInv(s, a);
    } else if OfUpload(a) {
      UploadKeepsInv(s, a);
    } else {
      CodecKeepsInv(s, a);
    }
  }

  lemma {:induction false} RunKeepsInv(s: Sys, run: seq<Action>)
    requires Inv(s) && After(s, run).At? && TimerServes(s, run)
    ensures Inv(After(s, run).s)
  {
    if run != [] {
      RunKeepsInv(s, run[..|run| - 1]);
      DoKeepsInv(After(s, run[..|run| - 1]).s, run[|run| - 1]);
    }
  }

  /** A write that has passed its start check is cut off, or shares the device with an upload. */
  predicate Struck(s: Sys) { s.codec.Writing? && (s.restarted || s.upload.Uploading?) }

  /**
   * While no timer start fails with another reboot already coming, no interleaving restarts the
   * device during a fast write that has passed its start check, and none lets an upload past its
   * fence during one.
   */
  lemma NeverIntoAWrite(run: seq<Action>)
    requires After(BOOT, run).At? && TimerServes(BOOT, run)
    ensures !Struck(After(BOOT, run).s)
  {
    RunKeepsInv(BOOT, run);
  }

  // ---- When an upload gets past its fence ------------------------------------------------

  /** Neither a flash nor a live host session: the claim is down, or expired with its owner gone. */
  predicate BusIsFree(bit: bool, claim: Inputs) {
    !bit && (claim.claimRaised ==> claim.claimExpired && !claim.claimOwnerAlive)
  }

  /** The flag goes up, and then the fence is read. */
  function UploadAttempt(s: Sys, claim: Inputs): Sys
    requires s.upload.NoUpload? && !s.restarted
  {
    Do(Do(s, UploadRaises), UploadLooks(claim))
  }

  /** An upload with nothing between its two steps goes ahead exactly when the bus is free, or turns away. */
  lemma UploadPassesExactlyWhenFree(s: Sys, claim: Inputs)
    requires s.upload.NoUpload? && !s.restarted
    ensures var t := UploadAttempt(s, claim);
      t.ota && if BusIsFree(s.bit, claim) then t.upload.Uploading? else t.upload.TurnedAway?
  {
  }

  /** On the reaper's own snapshot: a raised claim stops an upload unless it has run out and its owner is gone. */
  lemma FenceReadsTheSnapshot(s: LeaseReaper.Snapshot)
    ensures BusIsFree(s.flash, FenceInputs(s)) <==>
      !s.flash && (s.claim.active ==> 0 != s.claim.deadline < s.now && !LeaseReaper.Held(s.claim, s.live))
    ensures Eval(FenceInputs(s)).Clear? <==> BusIsFree(s.flash, FenceInputs(s))
  {
    LeaseReaper.OwnerAliveMeansHeld(s.claim, s.live);
  }

  /** In every run an upload under way found the bus free when it last looked. */
  lemma {:induction false} UploadFoundTheBusFree(run: seq<Action>) returns (n: nat, claim: Inputs)
    requires After(BOOT, run).At? && After(BOOT, run).s.upload.Uploading?
    ensures n < |run| && run[n] == UploadLooks(claim) && After(BOOT, run[..n]).At?
    ensures BusIsFree(After(BOOT, run[..n]).s.bit, claim)
    ensures forall k | n < k < |run| :: !run[k].UploadLooks?
  {
    hide Do, Enabled, BusIsFree;
    var front, a := run[..|run| - 1], run[|run| - 1];
    UploadStays(After(BOOT, front).s, a);
    if a.UploadLooks? {
      n, claim := |run| - 1, a.claim;
    } else {
      n, claim := UploadFoundTheBusFree(front);
      assert run[..n] == front[..n];
      assert forall k | n < k < |front| :: run[k] == front[k];
    }
  }

  lemma UploadStays(s: Sys, a: Action)
    requires Enabled(s, a) && Do(s, a).upload.Uploading?
    ensures if a.UploadLooks? then BusIsFree(s.bit, a.claim) else s.upload.Uploading?
  {
  }

  // ---- Which failed timer starts hurt ----------------------------------------------------

  /** The run leads from one state to the other, and the timer serves throughout. */
  predicate Leads(s: Sys, run: seq<Action>, t: Sys) { After(s, run) == At(t) && TimerServes(s, run) }

  lemma Extend(s0: Sys, r: seq<Action>, s: Sys, a: Action) returns (r': seq<Action>)
    requires Leads(s0, r, s) && Enabled(s, a) && Harmless(s, a)
    ensures r' == r + [a] && Leads(s0, r', Do(s, a))
  {
    r' := r + [a];
    assert r'[..|r'| - 1] == r;
  }

  lemma NotATimerStart(a: Action)
    requires !a.ScheduleStart?
    ensures forall s :: Harmless(s, a)
  {
  }

  /** A start check can always come to its decision without touching anything else. */
  lemma CheckEnds(s0: Sys, r: seq<Action>, s: Sys) returns (run: seq<Action>, c: Codec)
    requires Leads(s0, r, s) && !s.restarted && s.codec.Checking?
    ensures Leads(s0, run, s.(codec := c)) && (c.Writing? || c.Refused?)
  {
    hide Leads, Harmless;
    NotATimerStart(WriteReadsReboot);
    NotATimerStart(WriteReadsOta);
    NotATimerStart(WriteDecides);
    run := r;
    var t := s;
    if t.codec.reboot.Unread? {
      run := Extend(s0, run, t, WriteReadsReboot);
      t := Do(t, WriteReadsReboot);
    }
    if t.codec.ota.Unread? {
      run := Extend(s0, run, t, WriteReadsOta);
      t := Do(t, WriteReadsOta);
    }
    run := Extend(s0, run, t, WriteDecides);
    c := Do(t, WriteDecides).codec;
  }

  /** And the codec to rest. */
  lemma CodecRests(s0: Sys, r: seq<Action>, s: Sys) returns (run: seq<Action>)
    requires Leads(s0, r, s) && !s.restarted && (s.bit <==> !s.codec.Idle?)
    ensures Leads(s0, run, s.(codec := Idle, bit := false))
  {
    hide Leads, Harmless;
    run := r;
    var c := s.codec;
    if c.Checking? {
      run, c := CheckEnds(s0, run, s);
    }
    if !c.Idle? {
      var leave := if c.Writing? then WriteEnds else if c.Refused? then WriteLeaves else ReadEnds;
      NotATimerStart(leave);
      run := Extend(s0, run, s.(codec := c), leave);
    }
  }

  /** And an upload that fails, or is turned away, lowers its flag. */
  lemma UploadGivesUp(s0: Sys, r: seq<Action>, s: Sys) returns (run: seq<Action>)
    requires Leads(s0, r, s) && !s.restarted
    ensures Leads(s0, run, s.(upload := NoUpload, ota := false))
  {
    run := r;
    var t := s;
    if t.upload.NoUpload? {
      run := Extend(s0, run, t, UploadRaises);
      t := Do(t, UploadRaises);
    }
    if t.upload.FlagUp? {
      var look := UploadLooks(Inputs(false, true, false, false));
      run := Extend(s0, run, t, look);
      t := Do(t, look);
    }
    run := Extend(s0, run, t, if t.upload.Uploading? then UploadFails else UploadLeaves);
  }

  /** With the timer running behind a lowered flag, the callback can look and find nothing in its way. */
  lemma CallbackLooks(s0: Sys, r: seq<Action>, s: Sys) returns (run: seq<Action>, level: Level)
    requires Leads(s0, r, s) && !s.restarted && !s.bit && s.timerOn
    ensures Leads(s0, run, s.(timer := Looked(level))) && RebootMayFire(level)
  {
    run := r;
    var t := s;
    if t.timer.Looked? && !RebootMayFire(t.timer.level) {
      run := Extend(s0, run, t, TimerActs);
      t := Do(t, TimerActs);
    }
    if t.timer.Waiting? {
      var look := TimerLooks(Inputs(false, false, false, false));
      run := Extend(s0, run, t, look);
      t := Do(t, look);
    }
    level := t.timer.level;
  }

  lemma WriteThenRestart(s0: Sys, r: seq<Action>, s: Sys) returns (run: seq<Action>)
    requires Leads(s0, r, s) && !s.restarted && !s.pending && !s.ota && s.codec.Idle? && !s.bit
    requires s.timer.Looked? && RebootMayFire(s.timer.level)
    ensures exists t :: Leads(s0, run, t) && t.codec.Writing? && t.restarted
  {
    var t := s;
    run := Extend(s0, r, t, WriteClaims);
    t := Do(t, WriteClaims);
    run := Extend(s0, run, t, WriteReadsReboot);
    t := Do(t, WriteReadsReboot);
    run := Extend(s0, run, t, WriteReadsOta);
    t := Do(t, WriteReadsOta);
    run := Extend(s0, run, t, WriteDecides);
    t := Do(t, WriteDecides);
    run := Extend(s0, run, t, TimerActs);
    t := Do(t, TimerActs);
  }

  /**
   * From every state, a start that fails while another reboot is coming can go on to a restart in
   * the middle of a write, although every later timer start succeeds.
   */
  lemma UncoveredCutsAWriteOff(s: Sys) returns (run: seq<Action>)
    requires Inv(s) && Enabled(s, ScheduleStart(false)) && !Harmless(s, ScheduleStart(false))
    ensures exists t :: Leads(Do(s, ScheduleStart(false)), run, t) && t.codec.Writing? && t.restarted
  {
    var s0 := Do(s, ScheduleStart(false));
    run := CodecRests(s0, [], s0);
    var t := s0.(codec := Idle, bit := false);
    run := UploadGivesUp(s0, run, t);
    t := t.(upload := NoUpload, ota := false);
    if !t.timerOn {
      // Another task is about to start the timer. The flag it raised has been lowered under it.
      run := Extend(s0, run, t, ScheduleStart(true));
      t := Do(t, ScheduleStart(true));
    }
    var level;
    run, level := CallbackLooks(s0, run, t);
    run := WriteThenRestart(s0, run, t.(timer := Looked(level)));
  }

  /** Nothing that can follow strikes a write, as long as the timer serves from here on. */
  ghost predicate SafeFrom(s: Sys) {
    forall run :: After(s, run).At? && TimerServes(s, run) ==> !Struck(After(s, run).s)
  }

  /**
   * The exact condition on a failed timer start, from any state: what follows is safe if and only if
   * no other task's reboot was coming. That is also when the shared flag still tells the truth.
   */
  lemma HarmlessIsExact(s: Sys)
    requires Inv(s) && Enabled(s, ScheduleStart(false))
    ensures SafeFrom(Do(s, ScheduleStart(false))) <==> Harmless(s, ScheduleStart(false))
    ensures Covered(Do(s, ScheduleStart(false))) <==> Harmless(s, ScheduleStart(false))
  {
    var t := Do(s, ScheduleStart(false));
    if Harmless(s, ScheduleStart(false)) {
      DoKeepsInv(s, ScheduleStart(false));
      forall run | After(t, run).At? && TimerServes(t, run) ensures !Struck(After(t, run).s) {
        RunKeepsInv(t, run);
      }
    } else {
      var run := UncoveredCutsAWriteOff(s);
      assert Struck(After(t, run).s);
    }
  }

  lemma {:induction false} AfterBoth(s: Sys, r: seq<Action>, t: Sys, run: seq<Action>)
    requires After(s, r) == At(t)
    ensures After(s, r + run) == After(t, run)
    decreases |run|
  {
    if run == [] {
      assert r + run == r;
    } else {
      var front := run[..|run| - 1];
      AfterBoth(s, r, t, front);
      assert (r + run)[..|r + run| - 1] == r + front;
    }
  }

  /** Such a state is reachable: two schedulers after a boot, the second one's start failing. */
  lemma FailedTimerStartCutsAWriteOff() returns (run: seq<Action>)
    ensures var o := After(BOOT, run); o.At? && o.s.restarted && o.s.codec.Writing?
  {
    hide Inv, Harmless, TimerServes;
    var s := BOOT.(pending := true, timerOn := true, starting := 1);
    run := TwoSchedulers();
    var more := UncoveredCutsAWriteOff(s);
    var failed := run + [ScheduleStart(false)];
    assert failed[..|failed| - 1] == run;
    AfterBoth(BOOT, failed, Do(s, ScheduleStart(false)), more);
    run := failed + more;
  }

  lemma TwoSchedulers() returns (run: seq<Action>)
    ensures var s := BOOT.(pending := true, timerOn := true, starting := 1);
      Leads(BOOT, run, s) && Inv(s) && Enabled(s, ScheduleStart(false)) && !Harmless(s, ScheduleStart(false))
  {
    var s := BOOT.(pending := true, timerOn := true);
    run := Extend(BOOT, [], BOOT, ScheduleRaise);
    run := Extend(BOOT, run, BOOT.(pending := true, starting := 1), ScheduleStart(true));
    run := Extend(BOOT, run, s, ScheduleRaise);
  }

  // ---- A postponed reboot is not lost ----------------------------------------------------

  /**
   * In every reachable state with the timer running and the codec idle the pending flag is up and
   * the next callback, reading and acting, restarts the device.
   */
  lemma IdleCodecLetsTheRebootFire(run: seq<Action>, claim: Inputs)
    requires After(BOOT, run).At? && TimerServes(BOOT, run)
    requires var s := After(BOOT, run).s; s.timerOn && s.timer.Waiting? && s.codec.Idle? && !s.restarted
    ensures var s := After(BOOT, run).s;
      s.pending && Do(Do(s, TimerLooks(claim)), TimerActs).restarted
  {
    RunKeepsInv(BOOT, run);
  }

  /** The codec is at rest and the timer has nothing to wait for. */
  predicate AboutToFire(s: Sys) {
    s.timerOn && s.codec.Idle? && !s.bit && (s.timer.Looked? ==> RebootMayFire(s.timer.level))
  }

  lemma StaysAboutToFire(s: Sys, a: Action)
    requires AboutToFire(s) && Enabled(s, a) && a != WriteClaims && a != ReadClaims
    ensures AboutToFire(Do(s, a)) && (Do(s, a).restarted <==> a == TimerActs)
  {
  }

  /**
   * Nor can anything but a new flash or fast read stop it. From such a state, whatever else happens
   * before or between the callback's look and its act: once it has acted, the device has restarted.
   */
  lemma {:induction false} RebootFiresOnceTheCodecRests(s: Sys, more: seq<Action>)
    requires AboutToFire(s) && !s.restarted && After(s, more).At?
    requires WriteClaims !in more && ReadClaims !in more
    ensures AboutToFire(After(s, more).s) && (After(s, more).s.restarted <==> TimerActs in more)
  {
    hide Do, AboutToFire;
    if more != [] {
      var front, a := more[..|more| - 1], more[|more| - 1];
      assert more == front + [a];
      RebootFiresOnceTheCodecRests(s, front);
      StaysAboutToFire(After(s, front).s, a);
      OnlyOneRestart(After(s, front).s, a);
    }
  }

  lemma OnlyOneRestart(s: Sys, a: Action)
    requires Enabled(s, a)
    ensures !s.restarted
  {
  }

  /** That state is what resting means in every reachable one. */
  lemma RestingIsAboutToFire(run: seq<Action>)
    requires After(BOOT, run).At? && TimerServes(BOOT, run)
    requires var s := After(BOOT, run).s; s.timerOn && s.timer.Waiting? && s.codec.Idle?
    ensures AboutToFire(After(BOOT, run).s)
  {
    RunKeepsInv(BOOT, run);
  }

  /** And a running codec postpones it: the callback looks, waits, and leaves everything as it was. */
  lemma BusyCodecPostponesTheReboot(run: seq<Action>, claim: Inputs)
    requires After(BOOT, run).At? && TimerServes(BOOT, run)
    requires var s := After(BOOT, run).s; s.timerOn && s.timer.Waiting? && !s.codec.Idle? && !s.restarted
    ensures var s := After(BOOT, run).s; Do(Do(s, TimerLooks(claim)), TimerActs) == s
  {
    RunKeepsInv(BOOT, run);
  }

  // ---- When a write is refused -----------------------------------------------------------

  /** An upload has succeeded, and no later one has lowered the flag again. */
  predicate Latched(run: seq<Action>) { run != [] && Latch(Latched(run[..|run| - 1]), run[|run| - 1]) }

  predicate Latch(was: bool, a: Action) {
    match a
    case UploadSucceeds => true
    case UploadLeaves => false
    case UploadFails => false
    case _ => was
  }

  lemma LatchFollowsTheFlag(s: Sys, a: Action, was: bool)
    requires Enabled(s, a) && (s.ota <==> !s.upload.NoUpload? || was)
    ensures var t := Do(s, a); t.ota <==> !t.upload.NoUpload? || Latch(was, a)
  {
  }

  /** The upload flag is up for a reason: an upload under way, or one that has succeeded. */
  predicate UploadHolds(s: Sys, run: seq<Action>) { !s.upload.NoUpload? || Latched(run) }

  lemma {:induction false} OtaFlagIsExact(run: seq<Action>)
    requires After(BOOT, run).At?
    ensures After(BOOT, run).s.ota <==> UploadHolds(After(BOOT, run).s, run)
  {
    hide Do, Enabled, Latch;
    if run != [] {
      var front := run[..|run| - 1];
      OtaFlagIsExact(front);
      LatchFollowsTheFlag(After(BOOT, front).s, run[|run| - 1], Latched(front));
    }
  }

  /** What each flag means, in every run in which the timer serves. */
  lemma FlagsTellTheTruth(run: seq<Action>)
    requires After(BOOT, run).At? && TimerServes(BOOT, run)
    ensures var s := After(BOOT, run).s;
      (s.pending <==> RebootComing(s)) && (s.ota <==> UploadHolds(s, run))
  {
    RunKeepsInv(BOOT, run);
    OtaFlagIsExact(run);
  }

  /** `n` is where the codec's latest action `a` happens in the run. */
  predicate LatestAt(run: seq<Action>, a: Action, n: nat) {
    n < |run| && run[n] == a && forall k | n < k < |run| :: run[k] != a
  }

  lemma ReadsStay(s: Sys, a: Action)
    requires Enabled(s, a) && Do(s, a).codec.Checking?
    ensures var c, c' := s.codec, Do(s, a).codec;
      && (c'.reboot.Read? ==>
            if a == WriteReadsReboot then c'.reboot.up == s.pending else c.Checking? && c.reboot == c'.reboot)
      && (c'.ota.Read? ==>
            if a == WriteReadsOta then c'.ota.up == s.ota else c.Checking? && c.ota == c'.ota)
  {
  }

  lemma {:induction false} RebootWasRead(run: seq<Action>) returns (n: nat)
    requires After(BOOT, run).At? && TimerServes(BOOT, run)
    requires var c := After(BOOT, run).s.codec; c.Checking? && c.reboot.Read?
    ensures LatestAt(run, WriteReadsReboot, n) && After(BOOT, run[..n]).At?
    ensures After(BOOT, run).s.codec.reboot.up <==> RebootComing(After(BOOT, run[..n]).s)
  {
    hide Do, Enabled, Harmless, UploadHolds, RebootComing;
    var front := run[..|run| - 1];
    ReadsStay(After(BOOT, front).s, run[|run| - 1]);
    if run[|run| - 1] == WriteReadsReboot {
      n := |run| - 1;
      FlagsTellTheTruth(front);
    } else {
      n := RebootWasRead(front);
      assert run[..n] == front[..n];
      assert forall k | n < k < |front| :: run[k] == front[k];
    }
  }

  lemma {:induction false} OtaWasRead(run: seq<Action>) returns (n: nat)
    requires After(BOOT, run).At? && TimerServes(BOOT, run)
    requires var c := After(BOOT, run).s.codec; c.Checking? && c.ota.Read?
    ensures LatestAt(run, WriteReadsOta, n) && After(BOOT, run[..n]).At?
    ensures After(BOOT, run).s.codec.ota.up <==> UploadHolds(After(BOOT, run[..n]).s, run[..n])
  {
    hide Do, Enabled, Harmless, UploadHolds, RebootComing;
    var front := run[..|run| - 1];
    ReadsStay(After(BOOT, front).s, run[|run| - 1]);
    if run[|run| - 1] == WriteReadsOta {
      n := |run| - 1;
      FlagsTellTheTruth(front);
    } else {
      n := OtaWasRead(front);
      assert run[..n] == front[..n];
      assert forall k | n < k < |front| :: run[k] == front[k];
    }
  }

  /**
   * The exact reason for a refusal. The codec decides on its two latest reads, and it refuses if and
   * only if a reboot was coming when it read the one flag, or an upload was under way or had
   * succeeded when it read the other.
   */
  lemma RefusalHasAReason(run: seq<Action>) returns (i: nat, j: nat)
    requires After(BOOT, run).At? && TimerServes(BOOT, run) && Enabled(After(BOOT, run).s, WriteDecides)
    ensures LatestAt(run, WriteReadsReboot, i) && LatestAt(run, WriteReadsOta, j)
    ensures After(BOOT, run[..i]).At? && After(BOOT, run[..j]).At?
    ensures Do(After(BOOT, run).s, WriteDecides).codec.Refused?
      <==> RebootComing(After(BOOT, run[..i]).s) || UploadHolds(After(BOOT, run[..j]).s, run[..j])
  {
    i := RebootWasRead(run);
    j := OtaWasRead(run);
  }

  // ---- A finished upload whose reboot does not come --------------------------------------

  /** The four actions of a start check, with nothing between them. */
  function Attempt(s: Sys): Sys
    requires s.codec.Idle? && !s.bit && !s.restarted
  {
    Do(Do(Do(Do(s, WriteClaims), WriteReadsReboot), WriteReadsOta), WriteDecides)
  }

  /** A finished upload keeps its flag up and no reboot is coming to lower it. */
  predicate Stranded(s: Sys, run: seq<Action>) { s.upload.NoUpload? && Latched(run) && !RebootComing(s) }

  /**
   * In every reachable state a write may start exactly when no reboot is coming and the upload flag
   * has no reason to be up; so it is refused with neither a reboot nor an upload in progress exactly
   * when a finished upload is stranded.
   */
  lemma WriteStartsExactlyWhenFree(run: seq<Action>)
    requires After(BOOT, run).At? && TimerServes(BOOT, run)
    requires var s := After(BOOT, run).s; s.codec.Idle? && !s.restarted
    ensures var s := After(BOOT, run).s;
      && !s.bit
      && (Attempt(s).codec.Writing? <==> !RebootComing(s) && !UploadHolds(s, run))
      && (Attempt(s).codec.Refused? && !RebootComing(s) && s.upload.NoUpload? <==> Stranded(s, run))
  {
    RunKeepsInv(BOOT, run);
    FlagsTellTheTruth(run);
  }

  /** That happens: an upload succeeds, and then the start of its reboot timer fails. */
  lemma FailedStartStrandsAnUpload() returns (run: seq<Action>)
    ensures Leads(BOOT, run, BOOT.(ota := true)) && Stranded(BOOT.(ota := true), run)
  {
    var look := UploadLooks(Inputs(false, false, false, false));
    run := Extend(BOOT, [], BOOT, UploadRaises);
    var s := Do(BOOT, UploadRaises);
    run := Extend(BOOT, run, s, look);
    s := Do(s, look);
    run := Extend(BOOT, run, s, UploadSucceeds);
    var uploaded := run;
    assert Latched(uploaded);
    s := Do(s, UploadSucceeds);
    run := Extend(BOOT, run, s, ScheduleRaise);
    assert run[..|run| - 1] == uploaded;
    var raised := run;
    run := Extend(BOOT, run, Do(s, ScheduleRaise), ScheduleStart(false));
    assert run[..|run| - 1] == raised;
  }

  /** From then on no write starts, whatever happens, until another upload begins. */
  lemma {:induction false} FinishedUploadBlocksWrites(run: seq<Action>, s: Sys, more: seq<Action>)
    requires After(BOOT, run) == At(s) && s.upload.NoUpload? && Latched(run) && s.codec.Idle?
    requires After(s, more).At? && UploadRaises !in more
    ensures var t := After(s, more).s; t.ota && t.upload.NoUpload? && !PassedOta(t.codec)
  {
    if more == [] {
      OtaFlagIsExact(run);
    } else {
      hide Do, Enabled, Latched;
      var front, a := more[..|more| - 1], more[|more| - 1];
      assert a in more && forall b | b in front :: b in more;
      FinishedUploadBlocksWrites(run, s, front);
      StaysBlocked(After(s, front).s, a);
    }
  }

  lemma StaysBlocked(s: Sys, a: Action)
    requires Enabled(s, a) && a != UploadRaises && s.ota && s.upload.NoUpload? && !PassedOta(s.codec)
    ensures var t := Do(s, a); t.ota && t.upload.NoUpload? && !PassedOta(t.codec)
  {
  }
}
