/**
 * The dead-man reaper of main/datalog_lease_task.c against HTTP handlers that arm, renew and
 * release the same leases.
 *
 * Every critical section is one action. Every read that the code makes outside the lock (the
 * clock, the connection generation, the flash bit, the diagnostic stamp) is an action of its own,
 * so any number of other actions can land between a read and the section that uses it.
 */
module LeaseReaper {
  import opened Words
  import opened CanLease

  const GRACE_US := 3_000_000
  const STUCK_FLASH_US := 180_000_000
  /** Uptimes and TTLs stay below this, so that no deadline wraps. */
  const HORIZON: int := 0x4000_0000_0000_0000

  datatype Id = Claim | Park

  /** A handler between its first read and its critical section. */
  datatype Op = ArmOp(ttl: u64) | RenewOp(token: u32, ttl: u64)
  datatype Call = HasClock(id: Id, op: Op, now: u64) | HasOwner(id: Id, op: Op, now: u64, owner: u32)

  datatype Snapshot = Snapshot(now: u64, live: u32, flash: bool, idle: u32, claim: Lease, park: Lease)

  function Expired(l: Lease, now: u64): bool { l.deadline != 0 && now > l.deadline }

  predicate ClaimDue(s: Snapshot) {
    && s.claim.active && Expired(s.claim, s.now) && !OwnerAlive(s.claim, s.live)
    && s.idle >= QUIESCE_MS && s.now > (s.claim.deadline + GRACE_US) % 0x1_0000_0000_0000_0000
  }

  predicate ParkDue(s: Snapshot) {
    s.park.active && Expired(s.park, s.now) && !OwnerAlive(s.park, s.live) && s.idle >= QUIESCE_MS
  }

  /** Where the reaper task is, and what it has read so far. */
  datatype Pc =
    | Asleep
    | GotClock(now: u64)
    | GotGen(now: u64, live: u32)
    | GotFlash(now: u64, live: u32, flash: bool)
    | GotIdle(now: u64, live: u32, flash: bool, idle: u32)
    | ReapClaim(s: Snapshot)
    | ReapClaimAt(s: Snapshot, at: u64)
    | ReapPark(s: Snapshot)
    | ReapParkAt(s: Snapshot, at: u64)

  function ParkBranch(s: Snapshot): Pc { if ParkDue(s) then ReapPark(s) else Asleep }

  function Decide(s: Snapshot): Pc {
    if s.flash then Asleep
    else if s.claim.active then if ClaimDue(s) then ReapClaim(s) else Asleep
    else ParkBranch(s)
  }

  /** A lease, and which of all the arms since boot raised it. */
  datatype Slot = Slot(lease: Lease, holder: nat)

  /** Everything behind the lock. `arms` lists every arm so far. */
  datatype Table = Table(tokenSeq: u32, claim: Slot, park: Slot, arms: seq<Id>)
  {
    function Get(id: Id): Slot { if id.Claim? then claim else park }
    function Put(id: Id, l: Slot): Table { if id.Claim? then this.(claim := l) else this.(park := l) }
    function Set(id: Id, l: Lease): Table { Put(id, Get(id).(lease := l)) }
  }

  /** The reaper task: where it is, when its latest pass began, and the stuck-flash bookkeeping. */
  datatype Task = Task(pc: Pc, start: u64, since: u64, alarm: bool)

  datatype Sys = Sys(clock: u64, live: u32, flash: bool, fence: bool, frameAt: u64, stamps: map<nat, u64>,
                     table: Table, calls: map<nat, Call>, task: Task)
  {
    function Get(id: Id): Lease { table.Get(id).lease }
    /** can_should_park(): is the bus reserved by anyone? */
    predicate ShouldPark() { flash || Get(Park).active || Get(Claim).active || fence }
  }

  datatype Action =
    | Elapse(us: nat)
    | Reconnect(gen: u32)
    | FrameClock(k: nat)
    | FrameStamp(k: nat)
    | SetFlash(on: bool)
    | SetFence(on: bool)
    | CallStart(h: nat, id: Id, op: Op)
    | CallOwner(h: nat)
    | CallCommit(h: nat)
    | HostRelease(id: Id, token: u32)
    | PassClock | PassGen | PassFlash | PassIdle | PassLock
    | ClaimClock | ClaimSection | ParkClock | ParkSection
  {
    predicate OfReaper() {
      PassClock? || PassGen? || PassFlash? || PassIdle? || PassLock? ||
      ClaimClock? || ClaimSection? || ParkClock? || ParkSection?
    }
  }

  predicate Enabled(s: Sys, a: Action) {
    match a
    case Elapse(us) => s.clock + us < HORIZON
    case CallStart(h, id, op) => h !in s.calls && op.ttl < HORIZON
    case FrameClock(k) => k !in s.stamps
    case FrameStamp(k) => k in s.stamps
    case CallOwner(h) => h in s.calls && s.calls[h].HasClock?
    case CallCommit(h) => h in s.calls && s.calls[h].HasOwner?
    case PassClock => s.task.pc.Asleep? && s.clock > s.task.start   // the loop sleeps first
    case _ => a.OfReaper() ==> a == NextOf(s.task.pc)
  }

  /** The reaper's next action. */
  function NextOf(pc: Pc): Action {
    match pc
    case Asleep => PassClock
    case GotClock(_) => PassGen
    case GotGen(_, _) => PassFlash
    case GotFlash(_, _, _) => PassIdle
    case GotIdle(_, _, _, _) => PassLock
    case ReapClaim(_) => ClaimClock
    case ReapClaimAt(_, _) => ClaimSection
    case ReapPark(_) => ParkClock
    case ReapParkAt(_, _) => ParkSection
  }

  function Commit(t: Table, c: Call): Table
    requires c.HasOwner?
  {
    match c.op
    case ArmOp(ttl) =>
      var tok := Bump(t.tokenSeq);
      t.(tokenSeq := tok, arms := t.arms + [c.id])
      .Put(c.id, Slot(Armed(tok, c.now, c.owner, ttl), |t.arms|))
    case RenewOp(token, ttl) => t.Set(c.id, Renewed(t.Get(c.id).lease, token, c.now, c.owner, ttl))
  }

  /** What the locked part of a pass reads. */
  function SnapshotOf(pc: Pc, t: Table): Snapshot
    requires pc.GotIdle?
  {
    Snapshot(pc.now, pc.live, pc.flash, pc.idle, t.claim.lease, t.park.lease)
  }

  function TaskStep(s: Sys): Task {
    var k := s.task;
    match k.pc
    case Asleep => k.(pc := GotClock(s.clock), start := s.clock)
    case GotClock(now) => k.(pc := GotGen(now, s.live))
    case GotGen(now, live) => k.(pc := GotFlash(now, live, s.flash))
    case GotFlash(now, live, flash) =>
      k.(pc := GotIdle(now, live, flash, IdleMs(now, s.frameAt / 1000 % 0x1_0000_0000)))
    case GotIdle(now, live, flash, idle) =>
      var (since, alarm) := Watch(k.since, k.alarm, Sight(now, flash));
      k.(pc := Decide(SnapshotOf(k.pc, s.table)), since := since, alarm := alarm)
    case ReapClaim(snap) => k.(pc := ReapClaimAt(snap, s.clock))
    case ReapClaimAt(snap, at) => k.(pc := if ReapsClaim(s) then ParkBranch(snap) else Asleep)
    case ReapPark(snap) => k.(pc := ReapParkAt(snap, s.clock))
    case ReapParkAt(snap, at) => k.(pc := Asleep)
  }

  predicate ReapsClaim(s: Sys) {
    var pc := s.task.pc;
    pc.ReapClaimAt? && Reapable(s.Get(Claim), pc.s.claim.token, pc.s.claim.deadline, pc.at)
  }

  predicate ReapsPark(s: Sys) {
    var pc := s.task.pc;
    pc.ReapParkAt? && Reapable(s.Get(Park), pc.s.park.token, pc.s.park.deadline, pc.at)
  }

  /** The reaper's effect on the table. */
  function ReaperTable(s: Sys): Table {
    if ReapsClaim(s) then s.table.Set(Claim, DISARMED)
    else if ReapsPark(s) then s.table.Set(Park, DISARMED)
    else s.table
  }

  function Do(s: Sys, a: Action): Sys
    requires Enabled(s, a)
  {
    match a
    case Elapse(us) => s.(clock := s.clock + us)
    case Reconnect(gen) => s.(live := gen)
    case FrameClock(k) => s.(stamps := s.stamps[k := s.clock])
    case FrameStamp(k) => s.(stamps := s.stamps - {k}, frameAt := s.stamps[k])
    case SetFlash(on) => s.(flash := on)
    case SetFence(on) => s.(fence := on)
    case CallStart(h, id, op) => s.(calls := s.calls[h := HasClock(id, op, s.clock)])
    case CallOwner(h) =>
      var c := s.calls[h];
      s.(calls := s.calls[h := HasOwner(c.id, c.op, c.now, s.live)])
    case CallCommit(h) => s.(calls := s.calls - {h}, table := Commit(s.table, s.calls[h]))
    case HostRelease(id, token) => s.(table := s.table.Set(id, Released(s.Get(id), token)))
    case _ => s.(task := TaskStep(s), table := ReaperTable(s))
  }

  /** A finite run: every action enabled where it happens. */
  predicate Feasible(s: Sys, run: seq<Action>)
    decreases |run|, 0
  {
    run == [] || (Feasible(s, run[..|run| - 1]) && Enabled(After(s, run[..|run| - 1]), run[|run| - 1]))
  }

  function After(s: Sys, run: seq<Action>): Sys
    requires Feasible(s, run)
    decreases |run|, 1
  {
    if run == [] then s else Do(After(s, run[..|run| - 1]), run[|run| - 1])
  }

  predicate Boot(s: Sys) {
    && s.table == Table(0, Slot(DISARMED, 0), Slot(DISARMED, 0), []) && s.calls == map[]
    && s.task.pc.Asleep? && s.task.start <= s.clock < HORIZON && s.frameAt <= s.clock
    && s.task.since == 0 && !s.task.alarm && s.stamps == map[]
  }

  // ---- What every action keeps ----------------------------------------------------------

  /** The token that the k-th arm since boot hands out. */
  function TokenOf(k: nat): u32 { Bumps(0, k + 1) }

  predicate SlotInv(t: Table, id: Id) {
    var Slot(l, k) := t.Get(id);
    && Coherent(l)
    && l.deadline < 2 * HORIZON
    && (l.active ==> k < |t.arms| && t.arms[k] == id && l.token == TokenOf(k))
  }

  predicate TableInv(t: Table) {
    SlotInv(t, Claim) && SlotInv(t, Park) && t.tokenSeq == Bumps(0, |t.arms|)
  }

  predicate SnapInv(k: Task, snap: Snapshot) {
    snap.now == k.start && snap.claim.deadline < 2 * HORIZON && !snap.flash
  }

  predicate TaskInv(k: Task, clock: u64) {
    && k.start <= clock
    && (k.pc.Asleep? || k.start > 0)
    && match k.pc
       case Asleep => true
       case GotClock(now) => now == k.start
       case GotGen(now, _) => now == k.start
       case GotFlash(now, _, _) => now == k.start
       case GotIdle(now, _, _, _) => now == k.start
       case ReapClaim(snap) => SnapInv(k, snap) && ClaimDue(snap)
       case ReapClaimAt(snap, at) => SnapInv(k, snap) && ClaimDue(snap) && snap.now <= at <= clock
       case ReapPark(snap) => SnapInv(k, snap) && ParkDue(snap)
       case ReapParkAt(snap, at) => SnapInv(k, snap) && ParkDue(snap) && snap.now <= at <= clock
  }

  predicate CallsInv(calls: map<nat, Call>, clock: u64) {
    forall h | h in calls :: calls[h].now <= clock && calls[h].op.ttl < HORIZON
  }

  predicate Inv(s: Sys) {
    TableInv(s.table) && TaskInv(s.task, s.clock) && CallsInv(s.calls, s.clock) && s.clock < HORIZON
  }

  lemma BootIsInv(s: Sys)
    requires Boot(s)
    ensures Inv(s)
  {
  }

  lemma CommitKeepsTable(t: Table, c: Call)
    requires TableInv(t) && c.HasOwner? && c.now < HORIZON && c.op.ttl < HORIZON
    ensures TableInv(Commit(t, c))
  {
    if c.op.ArmOp? {
      var t' := Commit(t, c);
      assert t'.tokenSeq == TokenOf(|t.arms|);
      assert forall k | 0 <= k < |t.arms| :: t'.arms[k] == t.arms[k];
    }
  }

  lemma TaskStepKeepsInv(s: Sys)
    requires Inv(s) && (s.task.pc.Asleep? ==> s.clock > s.task.start)
    ensures TaskInv(TaskStep(s), s.clock)
  {
    hide ClaimDue, ParkDue, Watch, IdleMs, OwnerAlive, Reapable, TokenOf, Bumps;
    assert s.Get(Claim).deadline < 2 * HORIZON by { assert SlotInv(s.table, Claim); }
  }

  lemma DoKeepsInv(s: Sys, a: Action)
    requires Inv(s) && Enabled(s, a)
    ensures Inv(Do(s, a))
  {
    if a.OfReaper() {
      TaskStepKeepsInv(s);
    } else if a.CallCommit? {
      CommitKeepsTable(s.table, s.calls[a.h]);
    }
  }

  lemma {:induction false} RunKeepsInv(s: Sys, run: seq<Action>)
    requires Inv(s) && Feasible(s, run)
    ensures Inv(After(s, run))
  {
    if run != [] {
      RunKeepsInv(s, run[..|run| - 1]);
      DoKeepsInv(After(s, run[..|run| - 1]), run[|run| - 1]);
    }
  }

  // ---- Who holds a lease -----------------------------------------------------------------

  /** The connection that armed or last renewed the lease is there; any connection is, if none was known. */
  predicate Held(l: Lease, live: u32) { live != 0 && (l.ownerGen == 0 || l.ownerGen == live) }

  lemma OwnerAliveMeansHeld(l: Lease, live: u32)
    ensures OwnerAlive(l, live) <==> Held(l, live)
  {
  }

  // ---- A reap only ever hits an overdue, unchanged lease --------------------------------

  /**
   * In every interleaving: an action of the reaper that takes a lease down finds it exactly as the
   * pass sampled it, past its deadline, with no flash seen and its owner gone when it looked; and
   * the bus-claim is by then at least the teardown grace past its last deadline.
   */
  lemma ReapHitsOverdueLease(boot: Sys, run: seq<Action>, a: Action, id: Id)
    requires Boot(boot) && Feasible(boot, run) && a.OfReaper() && Enabled(After(boot, run), a)
    requires After(boot, run).Get(id).active && !Do(After(boot, run), a).Get(id).active
    ensures var s := After(boot, run);
      && a == (if id.Claim? then ClaimSection else ParkSection)
      && s.clock > s.Get(id).deadline
      && (id.Claim? ==> s.clock > s.Get(Claim).deadline + 3_000_000)
      && var snap := s.task.pc.s;
      var sampled := if id.Claim? then snap.claim else snap.park;
      && sampled.token == s.Get(id).token && sampled.deadline == s.Get(id).deadline
      && !Held(sampled, snap.live) && !snap.flash && snap.idle >= 300
  {
    RunKeepsInv(boot, run);
    hide After, Feasible, Boot, Inv, Do;
    ReapNeedsOverdueLease(After(boot, run), a, id);
  }

  lemma ReapNeedsOverdueLease(s: Sys, a: Action, id: Id)
    requires Inv(s) && a.OfReaper() && Enabled(s, a) && s.Get(id).active && !Do(s, a).Get(id).active
    ensures a == (if id.Claim? then ClaimSection else ParkSection)
    ensures s.clock > s.Get(id).deadline && (id.Claim? ==> s.clock > s.Get(Claim).deadline + 3_000_000)
    ensures var snap := s.task.pc.s;
      var sampled := if id.Claim? then snap.claim else snap.park;
      && sampled.token == s.Get(id).token && sampled.deadline == s.Get(id).deadline
      && !Held(sampled, snap.live) && !snap.flash && snap.idle >= 300
  {
    hide OwnerAlive, Held, IdleMs, Watch, Decide, TableInv, CallsInv;
    var snap := s.task.pc.s;
    OwnerAliveMeansHeld(snap.claim, snap.live);
    OwnerAliveMeansHeld(snap.park, snap.live);
  }

  /** The diagnostic idle time that the pass under way works with. */
  function IdleOf(pc: Pc): Option<u32> {
    match pc
    case GotIdle(_, _, _, idle) => Some(idle)
    case ReapClaim(snap) => Some(snap.idle)
    case ReapClaimAt(snap, _) => Some(snap.idle)
    case ReapPark(snap) => Some(snap.idle)
    case ReapParkAt(snap, _) => Some(snap.idle)
    case _ => None
  }

  lemma IdleStays(s: Sys, a: Action)
    requires Inv(s) && Enabled(s, a) && IdleOf(Do(s, a).task.pc).Some?
    ensures Do(s, a).task.start == s.task.start
    ensures IdleOf(Do(s, a).task.pc)
      == if a == PassIdle then Some(IdleMs(s.task.start, s.frameAt / 1000 % 0x1_0000_0000)) else IdleOf(s.task.pc)
  {
    hide IdleMs, Watch, ClaimDue, ParkDue, TableInv, CallsInv, Reapable;
  }

  lemma {:induction false} IdleWasRead(boot: Sys, run: seq<Action>) returns (n: nat)
    requires Boot(boot) && Feasible(boot, run) && IdleOf(After(boot, run).task.pc).Some?
    ensures n < |run| && run[n] == PassIdle && Feasible(boot, run[..n])
    ensures IdleOf(After(boot, run).task.pc)
      == Some(IdleMs(After(boot, run).task.start, After(boot, run[..n]).frameAt / 1000 % 0x1_0000_0000))
  {
    hide Do, Enabled, Inv, IdleMs, IdleOf;
    NothingReadAtBoot(boot);
    assert run != [];
    var front := run[..|run| - 1];
    RunKeepsInvFromBoot(boot, front);
    IdleStays(After(boot, front), run[|run| - 1]);
    if run[|run| - 1] == PassIdle {
      n := |run| - 1;
    } else {
      n := IdleWasRead(boot, front);
      assert run[..n] == front[..n];
    }
  }

  lemma NothingReadAtBoot(s: Sys)
    requires Boot(s)
    ensures IdleOf(s.task.pc).None?
  {
  }

  /**
   * What "diagnostics were quiet" means for a reap. At the moment the pass read the stamp, the
   * diagnostic frame that had stored it was at least 300 ms older than the pass's clock read, or it
   * had come after that read, in a later millisecond. (Stamps less than 2^32 ms old, passes less than
   * that long. The stamp is of the frame that stored last, which need not be the one that came last.)
   */
  lemma ReapFoundTheBusQuiet(boot: Sys, run: seq<Action>, a: Action, id: Id) returns (n: nat)
    requires Boot(boot) && Feasible(boot, run) && a.OfReaper() && Enabled(After(boot, run), a)
    requires After(boot, run).Get(id).active && !Do(After(boot, run), a).Get(id).active
    ensures n < |run| && run[n] == PassIdle && Feasible(boot, run[..n])
    ensures var now, frame := After(boot, run).task.start, After(boot, run[..n]).frameAt;
      now / 1000 - frame / 1000 < TWO32 && frame / 1000 - now / 1000 <= TWO32 - 300
      ==> now / 1000 - frame / 1000 >= 300 || frame / 1000 > now / 1000
  {
    BootIsInv(boot);
    RunKeepsInv(boot, run);
    hide After, Feasible, Boot, Inv, Do;
    var s := After(boot, run);
    ReapNeedsOverdueLease(s, a, id);
    assert IdleOf(s.task.pc) == Some(s.task.pc.s.idle);
    n := IdleWasRead(boot, run);
    var now, frame := s.task.start, After(boot, run[..n]).frameAt;
    if now / 1000 - frame / 1000 < TWO32 && frame / 1000 - now / 1000 <= TWO32 - QUIESCE_MS {
      IdleVerdict(now, frame);
    }
  }

  /** The host renews in time: whenever lease `id` is up, its deadline has not passed. */
  predicate KeptAlive(s: Sys, run: seq<Action>, id: Id)
    requires Feasible(s, run)
  {
    && (var e := After(s, run); e.Get(id).active ==> e.clock <= e.Get(id).deadline)
    && (run != [] ==> KeptAlive(s, run[..|run| - 1], id))
  }

  /** A release that the lease obeys: with no token, or with its own. */
  predicate Releases(s: Sys, a: Action, id: Id) {
    a.HostRelease? && a.id == id && (a.token == 0 || a.token == s.Get(id).token)
  }

  /** From the n-th action on nobody releases lease `id`; stale tokens may be tried at will. */
  predicate NotReleased(s: Sys, run: seq<Action>, n: nat, id: Id)
    requires Feasible(s, run)
  {
    |run| <= n ||
    (NotReleased(s, run[..|run| - 1], n, id) && !Releases(After(s, run[..|run| - 1]), run[|run| - 1], id))
  }

  /**
   * A host that never lets a deadline pass keeps its lease. Take any run in which the lease is up
   * after the first `n` actions, is renewed in time throughout, and is not released afterwards:
   * whatever the reaper and the other handlers do, it is up at the end.
   */
  lemma {:induction false} KeptLeaseStaysUp(boot: Sys, run: seq<Action>, n: nat, id: Id)
    requires Boot(boot) && Feasible(boot, run) && KeptAlive(boot, run, id) && n <= |run|
    requires Feasible(boot, run[..n]) && After(boot, run[..n]).Get(id).active
    requires NotReleased(boot, run, n, id)
    ensures After(boot, run).Get(id).active
  {
    hide Do, Enabled, Inv, Boot, Releases;
    if n == |run| {
      assert run[..n] == run;
    } else {
      var front, a := run[..|run| - 1], run[|run| - 1];
      assert front[..n] == run[..n];
      KeptLeaseStaysUp(boot, front, n, id);
      BootIsInv(boot);
      RunKeepsInv(boot, front);
      assert KeptAlive(boot, front, id);
      StepKeepsLease(After(boot, front), a, id);
    }
  }

  /** Only its own release, or the reaper once the deadline has passed, takes a lease down. */
  lemma StepKeepsLease(s: Sys, a: Action, id: Id)
    requires Inv(s) && Enabled(s, a) && s.Get(id).active && s.clock <= s.Get(id).deadline
    requires !Releases(s, a, id)
    ensures Do(s, a).Get(id).active
  {
    if a.OfReaper() && !Do(s, a).Get(id).active {
      ReapNeedsOverdueLease(s, a, id);
      assert false;
    }
    hide TableInv, TaskInv, CallsInv;
  }

  /** The reaper never unparks the datalogger while the bus is owned by a flash or by a live lease. */
  lemma UnparkNeedsEveryLeaseOverdue(boot: Sys, run: seq<Action>, a: Action)
    requires Boot(boot) && Feasible(boot, run) && a.OfReaper() && Enabled(After(boot, run), a)
    requires After(boot, run).ShouldPark() && !Do(After(boot, run), a).ShouldPark()
    ensures var s := After(boot, run);
      && !s.flash && !s.fence
      && (s.Get(Claim).active ==> s.clock > s.Get(Claim).deadline + 3_000_000)
      && (s.Get(Park).active ==> s.clock > s.Get(Park).deadline)
  {
    var s := After(boot, run);
    if s.Get(Claim).active { ReapHitsOverdueLease(boot, run, a, Claim); }
    if s.Get(Park).active { ReapHitsOverdueLease(boot, run, a, Park); }
  }

  // ---- What an arm, a renewal and a release do for the host ------------------------------

  /** Where a call under way began: its clock read, and what it was asked to do. */
  lemma {:induction false} CallHasStart(boot: Sys, run: seq<Action>, h: nat) returns (n: nat)
    requires Boot(boot) && Feasible(boot, run) && h in After(boot, run).calls
    ensures n < |run| && Feasible(boot, run[..n])
    ensures var c := After(boot, run).calls[h];
      run[n] == CallStart(h, c.id, c.op) && c.now == After(boot, run[..n]).clock
  {
    hide Do, Enabled, Boot;
    NoCallsAtBoot(boot);
    assert run != [];
    var front, a := run[..|run| - 1], run[|run| - 1];
    CallStays(After(boot, front), a, h);
    if a.CallStart? && a.h == h {
      n := |run| - 1;
    } else {
      n := CallHasStart(boot, front, h);
      assert run[..n] == front[..n];
    }
  }

  lemma NoCallsAtBoot(s: Sys)
    requires Boot(s)
    ensures s.calls == map[]
  {
  }

  lemma CallStays(s: Sys, a: Action, h: nat)
    requires Enabled(s, a) && h in Do(s, a).calls
    ensures var c := Do(s, a).calls[h];
      if a.CallStart? && a.h == h then c == HasClock(a.id, a.op, s.clock)
      else h in s.calls && s.calls[h].id == c.id && s.calls[h].op == c.op && s.calls[h].now == c.now
  {
    hide TaskStep, ReaperTable, Commit;
  }

  /** And where it read the connection that will own the lease. */
  lemma {:induction false} OwnerWasRead(boot: Sys, run: seq<Action>, h: nat) returns (n: nat)
    requires Boot(boot) && Feasible(boot, run) && h in After(boot, run).calls && After(boot, run).calls[h].HasOwner?
    ensures n < |run| && Feasible(boot, run[..n]) && run[n] == CallOwner(h)
    ensures After(boot, run).calls[h].owner == After(boot, run[..n]).live
  {
    hide Do, Enabled, Boot;
    NoCallsAtBoot(boot);
    assert run != [];
    var front, a := run[..|run| - 1], run[|run| - 1];
    OwnerStays(After(boot, front), a, h);
    if a == CallOwner(h) {
      n := |run| - 1;
    } else {
      n := OwnerWasRead(boot, front, h);
      assert run[..n] == front[..n];
    }
  }

  lemma OwnerStays(s: Sys, a: Action, h: nat)
    requires Enabled(s, a) && h in Do(s, a).calls && Do(s, a).calls[h].HasOwner?
    ensures if a == CallOwner(h) then Do(s, a).calls[h].owner == s.live
            else h in s.calls && s.calls[h] == Do(s, a).calls[h]
  {
    hide TaskStep, ReaperTable, Commit;
  }

  /** The call is an arm, or a renewal with the current token of an active lease. */
  predicate TakesEffect(s: Sys, c: Call) {
    c.op.ArmOp? || (s.Get(c.id).active && c.op.token == s.Get(c.id).token)
  }

  /** In the run no call commits for lease `id`. */
  predicate NoCommit(s: Sys, run: seq<Action>, id: Id)
    requires Feasible(s, run)
  {
    run == [] ||
    var front, a := run[..|run| - 1], run[|run| - 1];
    NoCommit(s, front, id) && !(a.CallCommit? && After(s, front).calls[a.h].id == id)
  }

  lemma CommitTakesEffect(s: Sys, h: nat)
    requires Inv(s) && Enabled(s, CallCommit(h)) && TakesEffect(s, s.calls[h])
    ensures var c := s.calls[h]; var l := Do(s, CallCommit(h)).Get(c.id);
      && l.active && l.deadline == c.now + c.op.ttl
      && l.ownerGen == if c.owner != 0 || c.op.ArmOp? then c.owner else s.Get(c.id).ownerGen
  {
    hide TaskInv, TaskStep, TableInv;
  }

  lemma LeaseIsLeftAlone(s: Sys, a: Action, id: Id)
    requires Inv(s) && Enabled(s, a) && s.Get(id).active && !Releases(s, a, id)
    requires !(a.CallCommit? && s.calls[a.h].id == id)
    ensures Do(s, a).Get(id) == s.Get(id) || (a.OfReaper() && !Do(s, a).Get(id).active)
  {
    hide TaskInv, TaskStep, TableInv, CallsInv;
  }

  lemma {:induction false} LeaseHolds(s: Sys, run: seq<Action>, id: Id)
    requires Inv(s) && s.Get(id).active && Feasible(s, run) && NoCommit(s, run, id) && NotReleased(s, run, 0, id)
    ensures var e := After(s, run); e.clock <= s.Get(id).deadline ==> e.Get(id) == s.Get(id)
  {
    hide Do, Enabled, Inv, Releases;
    if run != [] {
      var front, a := run[..|run| - 1], run[|run| - 1];
      RunKeepsInv(s, front);
      LeaseHolds(s, front, id);
      ClockRuns(After(s, front), a);
      if After(s, run).clock <= s.Get(id).deadline {
        LeaseIsLeftAlone(After(s, front), a, id);
        StepKeepsLease(After(s, front), a, id);
      }
    }
  }

  lemma ClockRuns(s: Sys, a: Action)
    requires Enabled(s, a)
    ensures s.clock <= Do(s, a).clock
  {
  }

  /**
   * What the host gets. Take an arm, or a renewal with the current token of an active lease, that
   * read the clock at c and was given the TTL t. From its commit on, as long as no other call commits
   * for that lease and nobody releases it, the lease is up and the datalogger parked until the clock
   * passes c+t, whatever the reaper and everybody else do. And it belongs to the connection that the
   * call found live; a renewal that found none leaves the owner as it was.
   */
  lemma CommittedCallHolds(boot: Sys, run: seq<Action>, h: nat, more: seq<Action>) returns (n: nat, m: nat)
    requires Boot(boot) && Feasible(boot, run) && Enabled(After(boot, run), CallCommit(h))
    requires TakesEffect(After(boot, run), After(boot, run).calls[h])
    requires var s := After(boot, run); var id, t := s.calls[h].id, Do(s, CallCommit(h));
      Feasible(t, more) && NoCommit(t, more, id) && NotReleased(t, more, 0, id)
    ensures n < |run| && run[n].CallStart? && run[n].h == h && Feasible(boot, run[..n])
    ensures run[n].id == After(boot, run).calls[h].id && run[n].op == After(boot, run).calls[h].op
    ensures var e := After(Do(After(boot, run), CallCommit(h)), more);
      e.clock <= After(boot, run[..n]).clock + run[n].op.ttl ==> e.Get(run[n].id).active && e.ShouldPark()
    ensures m < |run| && run[m] == CallOwner(h) && Feasible(boot, run[..m])
    ensures var e := After(Do(After(boot, run), CallCommit(h)), more);
      var found := After(boot, run[..m]).live;
      var owner := if found != 0 || run[n].op.ArmOp? then found else After(boot, run).Get(run[n].id).ownerGen;
      e.clock <= After(boot, run[..n]).clock + run[n].op.ttl ==> e.Get(run[n].id).ownerGen == owner
  {
    n := CallHasStart(boot, run, h);
    m := OwnerWasRead(boot, run, h);
    RunKeepsInvFromBoot(boot, run);
    var s := After(boot, run);
    CommitTakesEffect(s, h);
    DoKeepsInv(s, CallCommit(h));
    hide Do, Boot, Inv, Enabled;
    LeaseHolds(Do(s, CallCommit(h)), more, s.calls[h].id);
  }

  /** What a pass in progress must not believe while the owner of lease `id` is connected. */
  predicate PassKnowsTheOwner(s: Sys, id: Id) {
    match s.task.pc
    case Asleep => true
    case GotClock(_) => true
    case GotGen(_, live) => live == s.live
    case GotFlash(_, live, _) => live == s.live
    case GotIdle(_, live, _, _) => live == s.live
    case ReapClaim(snap) => id.Park? && snap.live == s.live && snap.park == s.Get(Park)
    case ReapClaimAt(snap, _) => id.Park? && snap.live == s.live && snap.park == s.Get(Park)
    case ReapPark(_) => id.Claim?
    case ReapParkAt(_, _) => id.Claim?
  }

  lemma HeldStepKeepsLease(s: Sys, a: Action, id: Id)
    requires Inv(s) && Enabled(s, a) && !a.Reconnect? && s.Get(id).active && Held(s.Get(id), s.live)
    requires PassKnowsTheOwner(s, id) && !Releases(s, a, id) && !(a.CallCommit? && s.calls[a.h].id == id)
    ensures var t := Do(s, a); t.live == s.live && t.Get(id) == s.Get(id) && PassKnowsTheOwner(t, id)
  {
    hide IdleMs, Watch, TableInv, CallsInv, OwnerAlive, Held;
    OwnerAliveMeansHeld(s.Get(id), s.live);
  }

  /**
   * A lease whose connection is there is not reaped, however long its deadline has passed: from any
   * moment between two passes, while nobody reconnects, commits a call for it, or releases it.
   */
  lemma {:induction false} HeldLeaseIsNotReaped(s: Sys, run: seq<Action>, id: Id)
    requires Inv(s) && s.task.pc.Asleep? && s.Get(id).active && Held(s.Get(id), s.live)
    requires Feasible(s, run) && NoCommit(s, run, id) && NotReleased(s, run, 0, id)
    requires forall a | a in run :: !a.Reconnect?
    ensures var e := After(s, run); e.live == s.live && e.Get(id) == s.Get(id) && PassKnowsTheOwner(e, id)
  {
    hide Do, Enabled, Inv, Releases, Held;
    if run != [] {
      var front, a := run[..|run| - 1], run[|run| - 1];
      assert a in run && forall b | b in front :: b in run;
      RunKeepsInv(s, front);
      HeldLeaseIsNotReaped(s, front, id);
      HeldStepKeepsLease(After(s, front), a, id);
    }
  }

  /** A release takes its lease down if it names no token or the right one, and otherwise does nothing. */
  lemma ReleaseIsObeyedExactly(s: Sys, id: Id, token: u32)
    ensures var t := Do(s, HostRelease(id, token));
      && (s.Get(id).active && (token == 0 || token == s.Get(id).token)
          ==> t == s.(table := t.table) && !t.Get(id).active)
      && (s.Get(id).active && token != 0 && token != s.Get(id).token ==> t == s)
      && forall other | other != id :: t.Get(other) == s.Get(other)
  {
  }

  // ---- Tokens ----------------------------------------------------------------------------

  /** In every run a lease is active exactly when its token is nonzero, and the two never share one. */
  lemma ActiveIffToken(boot: Sys, run: seq<Action>)
    requires Boot(boot) && Feasible(boot, run)
    ensures var t := After(boot, run).table;
      && (t.claim.lease.active <==> t.claim.lease.token != 0) && (t.park.lease.active <==> t.park.lease.token != 0)
      && (t.claim.lease.active && t.park.lease.active && -CYCLE < t.claim.holder - t.park.holder < CYCLE
          ==> t.claim.lease.token != t.park.lease.token)
  {
    RunKeepsInv(boot, run);
    var t := After(boot, run).table;
    assert SlotInv(t, Claim) && SlotInv(t, Park);
    if t.claim.lease.active && t.park.lease.active && -CYCLE < t.claim.holder - t.park.holder < CYCLE {
      DistinctTokens(t.claim.holder, t.park.holder);
    }
  }

  lemma DistinctTokens(j: nat, k: nat)
    requires j != k && -CYCLE < j - k < CYCLE
    ensures TokenOf(j) != TokenOf(k)
  {
    if j < k { BumpsDistinct(0, j + 1, k + 1); } else { BumpsDistinct(0, k + 1, j + 1); }
  }

  /**
   * A stale token is powerless. Take the token that the k-th arm handed out, and a lease whose own
   * arm is within 2^32-2 arms of that one. If renewing or releasing with the token changes the
   * lease, then that lease is the one the k-th arm raised and it has not been re-armed since.
   */
  lemma StaleTokenIsPowerless(boot: Sys, run: seq<Action>, k: nat, id: Id, now: u64, owner: u32, ttl: u64)
    requires Boot(boot) && Feasible(boot, run)
    requires k < |After(boot, run).table.arms| && -CYCLE < k - After(boot, run).table.Get(id).holder < CYCLE
    ensures var t := After(boot, run).table;
      var token, l := TokenOf(k), t.Get(id).lease;
      && token != 0
      && (Released(l, token) != l || Renewed(l, token, now, owner, ttl) != l
          ==> t.Get(id).holder == k && t.arms[k] == id)
  {
    RunKeepsInv(boot, run);
    var t := After(boot, run).table;
    assert SlotInv(t, id);
    assert TokenOf(k) == Bump(Bumps(0, k));
    if t.Get(id).lease.active && t.Get(id).holder != k {
      DistinctTokens(t.Get(id).holder, k);
    }
  }

  // ---- Bounded recovery ------------------------------------------------------------------

  /** The host is gone: only time and the reaper move. */
  predicate Quiet(run: seq<Action>) {
    forall i | 0 <= i < |run| :: run[i].Elapse? || run[i].OfReaper()
  }

  function Ttl(id: Id): u64 { if id.Claim? then 75_000_000 else 12_000_000 }

  /** Every handler arms and renews with the TTL of its own lease. */
  predicate OwnTtl(a: Action) { a.CallStart? ==> a.op.ttl == Ttl(a.id) }

  predicate DeadlineNear(s: Sys, id: Id) { s.Get(id).active ==> 0 < s.Get(id).deadline <= s.clock + Ttl(id) }

  predicate TtlsHold(s: Sys) {
    DeadlineNear(s, Claim) && DeadlineNear(s, Park) && InputsHold(s)
  }

  /** Stamps are of the past, and calls under way carry their lease's TTL. */
  predicate InputsHold(s: Sys) {
    && s.frameAt <= s.clock
    && (forall k | k in s.stamps :: s.stamps[k] <= s.clock)
    && forall h | h in s.calls :: s.calls[h].op.ttl == Ttl(s.calls[h].id)
  }

  lemma DoKeepsTtls(s: Sys, a: Action)
    requires Inv(s) && TtlsHold(s) && Enabled(s, a) && OwnTtl(a)
    ensures TtlsHold(Do(s, a))
  {
    hide Do, Inv, InputsHold, DeadlineNear;
    InputsStay(s, a);
    DeadlineStaysNear(s, a, Claim);
    DeadlineStaysNear(s, a, Park);
  }

  lemma InputsStay(s: Sys, a: Action)
    requires InputsHold(s) && Enabled(s, a) && OwnTtl(a)
    ensures InputsHold(Do(s, a))
  {
    hide TaskStep, ReaperTable, Commit;
  }

  lemma DeadlineStaysNear(s: Sys, a: Action, id: Id)
    requires Inv(s) && InputsHold(s) && DeadlineNear(s, id) && Enabled(s, a)
    ensures DeadlineNear(Do(s, a), id)
  {
    hide TableInv, TaskInv, TaskStep;
  }

  lemma {:induction false} RunKeepsTtls(boot: Sys, run: seq<Action>)
    requires Boot(boot) && Feasible(boot, run) && forall a | a in run :: OwnTtl(a)
    ensures Inv(After(boot, run)) && TtlsHold(After(boot, run))
  {
    hide Do, Enabled, OwnTtl, TaskInv, TableInv;
    RunKeepsInvFromBoot(boot, run);
    if run != [] {
      var front, a := run[..|run| - 1], run[|run| - 1];
      assert a in run && forall b | b in front :: b in run;
      RunKeepsTtls(boot, front);
      DoKeepsTtls(After(boot, front), a);
    }
  }

  lemma RunKeepsInvFromBoot(boot: Sys, run: seq<Action>)
    requires Boot(boot) && Feasible(boot, run)
    ensures Inv(After(boot, run))
  {
    BootIsInv(boot);
    RunKeepsInv(boot, run);
  }

  /** The state the host leaves behind at T0 == s.clock. */
  predicate HostGone(s: Sys) { Inv(s) && TtlsHold(s) && !s.flash && NobodyHolds(s, Claim) && NobodyHolds(s, Park) }

  predicate NobodyHolds(s: Sys, id: Id) { s.Get(id).active ==> !Held(s.Get(id), s.live) }

  /** Progress of a pass that started more than 78 s after the host went away. */
  predicate Progress(pc: Pc, claim: Lease, park: Lease, gen: u32) {
    match pc
    case Asleep => !claim.active && !park.active
    case GotClock(now) => true
    case GotGen(now, live) => live == gen
    case GotFlash(now, live, flash) => live == gen && !flash
    case GotIdle(now, live, flash, idle) => live == gen && !flash && idle >= QUIESCE_MS
    case ReapClaim(snap) => snap.claim == claim && snap.park == park && (park.active ==> ParkDue(snap))
    case ReapClaimAt(snap, at) => snap.claim == claim && snap.park == park && (park.active ==> ParkDue(snap))
    case ReapPark(snap) => !claim.active && snap.park == park
    case ReapParkAt(snap, at) => !claim.active && snap.park == park
  }

  predicate Recovering(s0: Sys, s: Sys) {
    && Inv(s) && s.live == s0.live && !s.flash && s.frameAt == s0.frameAt && s.clock >= s0.clock && s.fence == s0.fence
    && (s.Get(Claim) == s0.Get(Claim) || s.Get(Claim) == DISARMED)
    && (s.Get(Park) == s0.Get(Park) || s.Get(Park) == DISARMED)
    && (s.task.start > s0.clock + 78_000_000 ==> Progress(s.task.pc, s.Get(Claim), s.Get(Park), s0.live))
  }

  lemma QuietStepRecovers(s0: Sys, s: Sys, a: Action)
    requires HostGone(s0) && Recovering(s0, s) && Enabled(s, a) && (a.Elapse? || a.OfReaper())
    requires s.clock / 1000 - s0.frameAt / 1000 < TWO32
    ensures Recovering(s0, Do(s, a))
  {
    DoKeepsInv(s, a);
    if a.OfReaper() && TaskStep(s).start > s0.clock + 78_000_000 {
      PassProgresses(s0, s);
    }
  }

  lemma PassProgresses(s0: Sys, s: Sys)
    requires HostGone(s0) && Recovering(s0, s)
    requires s.clock / 1000 - s0.frameAt / 1000 < TWO32
    requires TaskStep(s).start > s0.clock + 78_000_000
    ensures var t := ReaperTable(s); Progress(TaskStep(s).pc, t.claim.lease, t.park.lease, s0.live)
  {
    OwnerAliveMeansHeld(s0.Get(Claim), s0.live);
    OwnerAliveMeansHeld(s0.Get(Park), s0.live);
    match s.task.pc
    case GotFlash(now, live, flash) => IdleVerdict(now, s0.frameAt);
    case GotIdle(now, live, flash, idle) => assert SnapshotOf(s.task.pc, s.table).idle >= QUIESCE_MS;
    case _ =>
  }

  /** Every state of the run sees the latest pass start at most `tick` microseconds ago. */
  predicate Timely(s: Sys, run: seq<Action>, tick: nat)
    requires Feasible(s, run)
  {
    && After(s, run).clock <= After(s, run).task.start + tick
    && (run != [] ==> Timely(s, run[..|run| - 1], tick))
  }

  lemma {:induction false} QuietRunRecovers(s0: Sys, run: seq<Action>)
    requires HostGone(s0) && Feasible(s0, run) && Quiet(run)
    requires After(s0, run).clock / 1000 - s0.frameAt / 1000 < TWO32
    ensures Recovering(s0, After(s0, run))
  {
    if run != [] {
      var front, a := run[..|run| - 1], run[|run| - 1];
      assert Quiet(front) by {
        forall i | 0 <= i < |front| ensures front[i].Elapse? || front[i].OfReaper() { assert front[i] == run[i]; }
      }
      assert After(s0, front).clock <= After(s0, run).clock;
      QuietRunRecovers(s0, front);
      QuietStepRecovers(s0, After(s0, front), a);
    }
  }

  /** By the time a pass begins more than a tick after T0+78 s, an earlier one has done the work. */
  lemma {:induction false} LatePassFindsNothing(s0: Sys, run: seq<Action>, tick: nat)
    requires HostGone(s0) && Feasible(s0, run) && Quiet(run) && Timely(s0, run, tick)
    requires After(s0, run).clock / 1000 - s0.frameAt / 1000 < TWO32
    ensures var s := After(s0, run);
      s.task.start > s0.clock + 78_000_000 + tick ==> !s.Get(Claim).active && !s.Get(Park).active
  {
    if run != [] {
      var front, a := run[..|run| - 1], run[|run| - 1];
      assert Quiet(front) by {
        forall i | 0 <= i < |front| ensures front[i].Elapse? || front[i].OfReaper() { assert front[i] == run[i]; }
      }
      assert a.Elapse? || a.OfReaper();
      assert After(s0, front).clock <= After(s0, run).clock;
      QuietRunRecovers(s0, front);
      LatePassFindsNothing(s0, front, tick);
      if After(s0, run).task.start > s0.clock + 78_000_000 + tick {
        StaysDown(After(s0, front), a);
      }
    }
  }

  lemma StaysDown(s: Sys, a: Action)
    requires Enabled(s, a) && (a.Elapse? || a.OfReaper()) && !s.Get(Claim).active && !s.Get(Park).active
    ensures !Do(s, a).Get(Claim).active && !Do(s, a).Get(Park).active
  {
  }

  /** Both leases are clear, and only the sleep fence can still park the datalogger. */
  predicate Recovered(s: Sys) { !s.Get(Claim).active && !s.Get(Park).active && (s.ShouldPark() <==> s.fence) }

  /**
   * Bounded recovery, from any history. The host stops at T0, in whatever state `before` has led to:
   * no connection holds a lease, no flash is running, and no call or diagnostic frame follows. Once a pass
   * that began later than T0+78 s is over, both leases are clear and, with the sleep fence down, the
   * datalogger is free to run. With passes beginning at most T apart that is so from T0+78 s+T on between
   * two passes, and from T0+78 s+2T on at every moment; the reaper's T is little more than a second.
   */
  lemma BoundedRecovery(boot: Sys, before: seq<Action>, run: seq<Action>, tick: nat)
    requires Boot(boot) && Feasible(boot, before) && forall a | a in before :: OwnTtl(a)
    requires var s0 := After(boot, before);
      !s0.flash && NobodyHolds(s0, Claim) && NobodyHolds(s0, Park)
    requires Feasible(After(boot, before), run) && Quiet(run)
    requires var s0 := After(boot, before); After(s0, run).clock / 1000 - s0.frameAt / 1000 < TWO32
    ensures var s0 := After(boot, before); var s := After(s0, run);
      s.task.start > s0.clock + 78_000_000 && s.task.pc.Asleep? ==> Recovered(s)
    ensures var s0 := After(boot, before); var s := After(s0, run);
      Timely(s0, run, tick) && s.clock > s0.clock + 78_000_000 + tick && s.task.pc.Asleep? ==> Recovered(s)
    ensures var s0 := After(boot, before); var s := After(s0, run);
      Timely(s0, run, tick) && s.clock > s0.clock + 78_000_000 + 2 * tick ==> Recovered(s)
  {
    RunKeepsTtls(boot, before);
    hide Feasible, Inv, TtlsHold, Boot;
    var s0 := After(boot, before);
    QuietRunRecovers(s0, run);
    if Timely(s0, run, tick) { LatePassFindsNothing(s0, run, tick); }
  }

  // ---- The stuck-flash alarm -------------------------------------------------------------

  /** What a pass sees of the flash bit. */
  datatype Sight = Sight(now: u64, flash: bool)

  function Watch(since: u64, alarm: bool, o: Sight): (u64, bool) {
    if !o.flash then (0, false)
    else if since == 0 then (o.now, alarm)
    else (since, alarm || o.now - since > STUCK_FLASH_US)
  }

  function Watched(os: seq<Sight>): (u64, bool) {
    if os == [] then (0, false)
    else var (since, alarm) := Watched(os[..|os| - 1]); Watch(since, alarm, os[|os| - 1])
  }

  /** Passes happen one after the other, and never at uptime zero: the reaper sleeps a tick first. */
  predicate InOrder(os: seq<Sight>) {
    && (forall i | 0 <= i < |os| :: os[i].now > 0)
    && (forall i, j | 0 <= i <= j < |os| :: os[i].now <= os[j].now)
  }

  /** The bit was up at every sighting from `i` on, and not at the one before. */
  predicate Streak(os: seq<Sight>, i: nat) {
    && i < |os|
    && (forall j | i <= j < |os| :: os[j].flash)
    && (i > 0 ==> !os[i - 1].flash)
  }

  /** The alarm is up exactly when the current unbroken streak of flash sightings exceeds 180 s. */
  lemma {:induction false} AlarmMeansLongStreak(os: seq<Sight>, i: nat)
    requires InOrder(os) && Streak(os, i)
    ensures Watched(os) == (os[i].now, os[|os| - 1].now - os[i].now > 180_000_000)
  {
    var front := os[..|os| - 1];
    if i == |os| - 1 {
      NoStreakNoAlarm(front);
    } else {
      assert Streak(front, i);
      AlarmMeansLongStreak(front, i);
    }
  }

  lemma NoStreakNoAlarm(os: seq<Sight>)
    requires os == [] || !os[|os| - 1].flash
    ensures Watched(os) == (0, false)
  {
  }

  /** What the passes of a run see of the flash bit, in order. */
  function Sights(s: Sys, run: seq<Action>): seq<Sight>
    requires Feasible(s, run)
  {
    if run == [] then []
    else
      var front := run[..|run| - 1];
      var pc := After(s, front).task.pc;
      Sights(s, front) + if run[|run| - 1].PassLock? && pc.GotIdle? then [Sight(pc.now, pc.flash)] else []
  }

  predicate SightsOk(os: seq<Sight>, k: Task) {
    && InOrder(os) && (forall i | 0 <= i < |os| :: os[i].now <= k.start)
    && (k.since, k.alarm) == Watched(os)
  }

  lemma StepKeepsSights(s: Sys, a: Action, os: seq<Sight>)
    requires Inv(s) && Enabled(s, a) && SightsOk(os, s.task)
    ensures var pc := s.task.pc;
      SightsOk(os + if a.PassLock? && pc.GotIdle? then [Sight(pc.now, pc.flash)] else [], Do(s, a).task)
  {
    hide Do, Enabled, Inv, InOrder, Watch, Watched;
    var pc := s.task.pc;
    if a.PassLock? && pc.GotIdle? {
      LockWatches(s);
      OneMoreSight(os, Sight(pc.now, pc.flash));
    } else {
      WatchStays(s, a);
      assert os + [] == os;
    }
  }

  lemma LockWatches(s: Sys)
    requires Inv(s) && s.task.pc.GotIdle? && Enabled(s, PassLock)
    ensures var k, k' := s.task, Do(s, PassLock).task;
      && 0 < k.pc.now == k.start == k'.start
      && (k'.since, k'.alarm) == Watch(k.since, k.alarm, Sight(k.pc.now, k.pc.flash))
  {
    hide Decide, IdleMs, TableInv, CallsInv, Reapable;
  }

  lemma WatchStays(s: Sys, a: Action)
    requires Inv(s) && Enabled(s, a) && !(a.PassLock? && s.task.pc.GotIdle?)
    ensures var k, k' := s.task, Do(s, a).task; k'.since == k.since && k'.alarm == k.alarm && k.start <= k'.start
  {
    hide Decide, IdleMs, TableInv, CallsInv, Reapable;
  }

  lemma OneMoreSight(os: seq<Sight>, o: Sight)
    requires InOrder(os) && o.now > 0 && forall i | 0 <= i < |os| :: os[i].now <= o.now
    ensures InOrder(os + [o])
    ensures Watched(os + [o]) == Watch(Watched(os).0, Watched(os).1, o)
  {
    assert (os + [o])[..|os|] == os;
  }

  lemma {:induction false} RunIsWatched(boot: Sys, run: seq<Action>)
    requires Boot(boot) && Feasible(boot, run)
    ensures SightsOk(Sights(boot, run), After(boot, run).task)
  {
    hide Do, Enabled, SightsOk, Inv;
    if run == [] {
      NothingSeenAtBoot(boot);
    } else {
      RunKeepsInvFromBoot(boot, run[..|run| - 1]);
      RunIsWatched(boot, run[..|run| - 1]);
      StepKeepsSights(After(boot, run[..|run| - 1]), run[|run| - 1], Sights(boot, run[..|run| - 1]));
    }
  }

  lemma NothingSeenAtBoot(s: Sys)
    requires Boot(s)
    ensures SightsOk([], s.task)
  {
  }

  lemma {:induction false} FlashMeansStreak(os: seq<Sight>) returns (i: nat)
    requires os != [] && os[|os| - 1].flash
    ensures Streak(os, i)
  {
    var n := |os| - 1;
    i := n;
    if n > 0 && os[n - 1].flash {
      i := FlashMeansStreak(os[..n]);
      assert forall j | i <= j < n :: os[j] == os[..n][j];
    }
  }

  /**
   * In every run the alarm is up exactly when the passes so far end in an unbroken streak of flash
   * sightings that spans more than 180 s.
   */
  lemma AlarmInEveryRun(boot: Sys, run: seq<Action>)
    requires Boot(boot) && Feasible(boot, run)
    ensures var os := Sights(boot, run);
      After(boot, run).task.alarm
      <==> exists i: nat :: Streak(os, i) && os[|os| - 1].now - os[i].now > 180_000_000
  {
    RunIsWatched(boot, run);
    hide After, Feasible, Boot, Watched, Sights;
    var os := Sights(boot, run);
    if os != [] && os[|os| - 1].flash {
      var i := FlashMeansStreak(os);
      AlarmMeansLongStreak(os, i);
      forall j: nat | Streak(os, j) ensures Watched(os).1 == (os[|os| - 1].now - os[j].now > STUCK_FLASH_US) {
        AlarmMeansLongStreak(os, j);
      }
    } else {
      NoStreakNoAlarm(os);
    }
  }

  // ---- One pass as the reaper runs it ----------------------------------------------------

  /** The effect of a whole pass on the leases and on the reaper's two locals. */
  datatype Effect = Effect(claim: Lease, park: Lease, since: u64, alarm: bool, resumed: bool)

  function PassEffect(snap: Snapshot, claimAt: u64, parkAt: u64, since: u64, alarm: bool): Effect {
    var (since', alarm') := Watch(since, alarm, Sight(snap.now, snap.flash));
    var claimGone := ClaimDue(snap) && Reapable(snap.claim, snap.claim.token, snap.claim.deadline, claimAt);
    var resume := !snap.flash && (snap.claim.active ==> claimGone) && ParkDue(snap)
                  && Reapable(snap.park, snap.park.token, snap.park.deadline, parkAt);
    Effect(if !snap.flash && claimGone then DISARMED else snap.claim,
           if resume then DISARMED else snap.park, since', alarm', resume)
  }

  class LeaseTask {
    var flashSinceUs: u64
    var alarmRaised: bool
    /** can.c's alarm flag, which the reaper keeps equal to its own. */
    var stuckFlashAlarm: bool

    constructor ()
      ensures flashSinceUs == 0 && !alarmRaised && !stuckFlashAlarm
    {
      flashSinceUs, alarmRaised, stuckFlashAlarm := 0, false, false;
    }

    /** One turn of the loop; the arguments are the values it reads from outside. */
    method Pass(co: Coexistence, now: u64, live: u32, flash: bool, idle: u32, claimAt: u64, parkAt: u64)
      returns (resumed: bool)
      requires co.Valid() && now <= claimAt && now <= parkAt
      requires alarmRaised == stuckFlashAlarm
      modifies this, co.claim, co.park
      ensures co.Valid() && alarmRaised == stuckFlashAlarm
      ensures var snap := Snapshot(now, live, flash, idle, old(co.claim.View()), old(co.park.View()));
        Effect(co.claim.View(), co.park.View(), flashSinceUs, alarmRaised, resumed)
          == PassEffect(snap, claimAt, parkAt, old(flashSinceUs), old(alarmRaised))
    {
      resumed := false;
      var s := Snapshot(now, live, flash, idle, co.claim.View(), co.park.View());
      if s.flash {
        if flashSinceUs == 0 {
          flashSinceUs := s.now;
        } else if !alarmRaised && s.now - flashSinceUs > STUCK_FLASH_US {
          stuckFlashAlarm := true;
          alarmRaised := true;
        }
        return;
      }
      flashSinceUs := 0;
      if alarmRaised {
        stuckFlashAlarm := false;
        alarmRaised := false;
      }
      var claimed := s.claim.active;
      if claimed && ClaimDue(s) {
        var gone := co.Reap(co.claim, s.claim.token, s.claim.deadline, claimAt);
        claimed := !gone;
      }
      if claimed {
        return;
      }
      if ParkDue(s) {
        resumed := co.Reap(co.park, s.park.token, s.park.deadline, parkAt);
      }
    }
  }

  /** The reads and sections of one pass, with only time passing before the two reaps. */
  function Turn(s: Sys): Sys
    requires s.task.pc.Asleep? ==> s.clock > s.task.start
  {
    Do(s, NextOf(s.task.pc))
  }

  function Wait(s: Sys, us: nat): Sys
    requires s.clock + us < HORIZON
  {
    Do(s, Elapse(us))
  }

  function Sampled(s: Sys): (t: Sys)
    requires s.task.pc.Asleep? && s.clock > s.task.start
    ensures t.clock == s.clock && t.table == s.table
    ensures t.task == Task(Decide(SnapshotNow(s)), s.clock, t.task.since, t.task.alarm)
    ensures (t.task.since, t.task.alarm) == Watch(s.task.since, s.task.alarm, Sight(s.clock, s.flash))
  {
    Turn(Turn(Turn(Turn(Turn(s)))))
  }

  function SnapshotNow(s: Sys): Snapshot {
    Snapshot(s.clock, s.live, s.flash, IdleMs(s.clock, s.frameAt / 1000 % 0x1_0000_0000), s.Get(Claim), s.Get(Park))
  }

  /** The claim reap, `us` microseconds after the snapshot. */
  function ClaimStage(s: Sys, us: nat): (t: Sys)
    requires s.task.pc.ReapClaim? && s.clock + us < HORIZON
    ensures t.clock == s.clock + us && t.Get(Park) == s.Get(Park)
    ensures var snap := s.task.pc.s;
      var gone := Reapable(s.Get(Claim), snap.claim.token, snap.claim.deadline, s.clock + us);
      && t.Get(Claim) == (if gone then DISARMED else s.Get(Claim))
      && t.task == s.task.(pc := if gone then ParkBranch(snap) else Asleep)
  {
    Turn(Turn(Wait(s, us)))
  }

  function ParkStage(s: Sys, us: nat): (t: Sys)
    requires s.task.pc.ReapPark? && s.clock + us < HORIZON
    ensures t.clock == s.clock + us && t.Get(Claim) == s.Get(Claim) && t.task == s.task.(pc := Asleep)
    ensures var snap := s.task.pc.s;
      t.Get(Park) == Reaped(s.Get(Park), snap.park.token, snap.park.deadline, s.clock + us)
  {
    Turn(Turn(Wait(s, us)))
  }

  function Undisturbed(s: Sys, d1: nat, d2: nat): Sys
    requires s.task.pc.Asleep? && s.clock > s.task.start && s.clock + d1 + d2 < HORIZON
  {
    var s5 := Sampled(s);
    var s6 := if s5.task.pc.ReapClaim? then ClaimStage(s5, d1) else s5;
    if s6.task.pc.ReapPark? then ParkStage(s6, d2) else s6
  }

  /** The interleaving model and the reaper's loop body agree on a pass that nothing disturbs. */
  lemma UndisturbedPass(s: Sys, d1: nat, d2: nat)
    requires s.task.pc.Asleep? && s.clock > s.task.start && s.clock + d1 + d2 < HORIZON
    ensures var t := Undisturbed(s, d1, d2);
      t.task.pc.Asleep?
      && Effect(t.Get(Claim), t.Get(Park), t.task.since, t.task.alarm, s.Get(Park).active && !t.Get(Park).active)
         == PassEffect(SnapshotNow(s), s.clock + d1, t.clock, s.task.since, s.task.alarm)
  {
    var snap := SnapshotNow(s);
    var s5 := Sampled(s);
    if s5.task.pc.ReapClaim? {
      assert Reapable(s.Get(Claim), snap.claim.token, snap.claim.deadline, s.clock + d1);
    }
  }
}
