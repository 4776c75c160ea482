/**
 * The two dead-man leases of main/can.c: the host bus-claim and the datalog-park.
 *
 * Each primitive is given twice: as a function on lease values, which the lemmas and the
 * interleaving model of LeaseReaper use, and as a method that updates the lease record in
 * place, which is the code inside the critical section. The clock and the connection
 * generation are parameters because the code reads them before it takes the lock.
 */
module CanLease {
  import opened Words

  datatype Lease = Lease(active: bool, token: u32, ownerGen: u32, deadline: u64)

  /** What lease_clear leaves behind. */
  const DISARMED := Lease(false, 0, 0, 0)

  /** The active flag, the token and the deadline say the same thing. */
  predicate Coherent(l: Lease) {
    && (l.active <==> l.token != 0)
    && (!l.active ==> l == DISARMED)
  }

  function Armed(token: u32, now: u64, owner: u32, ttl: u64): Lease {
    Lease(true, token, owner, (now + ttl) % 0x1_0000_0000_0000_0000)
  }

  /** A renewal that presents the right token moves the deadline and re-stamps a known owner. */
  function Renewed(l: Lease, token: u32, now: u64, owner: u32, ttl: u64): Lease {
    if l.active && l.token == token
    then l.(deadline := (now + ttl) % 0x1_0000_0000_0000_0000, ownerGen := if owner != 0 then owner else l.ownerGen)
    else l
  }

  /** Token 0 releases whatever is there. */
  function Released(l: Lease, token: u32): Lease {
    if l.active && (token == 0 || l.token == token) then DISARMED else l
  }

  predicate Reapable(l: Lease, token: u32, deadline: u64, now: u64) {
    l.active && l.token == token && l.deadline == deadline && deadline != 0 && now > deadline
  }

  /** Compare-and-clear: only the exact lease that was sampled, and only if it is still overdue. */
  function Reaped(l: Lease, token: u32, deadline: u64, now: u64): Lease {
    if Reapable(l, token, deadline, now) then DISARMED else l
  }

  /** Is the connection that owns the lease still there? Generation 0 means "never captured". */
  predicate OwnerAlive(l: Lease, liveGen: u32) {
    if l.ownerGen == 0 then liveGen != 0 else liveGen == l.ownerGen
  }

  class LeaseRecord {
    var active: bool
    var token: u32
    var ownerGen: u32
    var deadlineUs: u64

    constructor ()
      ensures View() == DISARMED
    {
      active, token, ownerGen, deadlineUs := false, 0, 0, 0;
    }

    function View(): Lease
      reads this
    {
      Lease(active, token, ownerGen, deadlineUs)
    }

    method Clear()
      modifies this
      ensures View() == DISARMED
    {
      active := false;
      token := 0;
      ownerGen := 0;
      deadlineUs := 0;
    }
  }

  /** The lease half of can.c: two records behind one lock, and one token source. */
  class Coexistence {
    const claim: LeaseRecord
    const park: LeaseRecord
    var tokenSeq: u32

    predicate Valid()
      reads this, claim, park
    {
      && claim != park
      && Coherent(claim.View()) && Coherent(park.View())
    }

    constructor ()
      ensures Valid() && fresh(claim) && fresh(park)
      ensures claim.View() == DISARMED && park.View() == DISARMED && tokenSeq == 0
    {
      claim := new LeaseRecord();
      park := new LeaseRecord();
      tokenSeq := 0;
    }

    method Arm(l: LeaseRecord, now: u64, owner: u32, ttl: u64) returns (tok: u32)
      requires Valid() && (l == claim || l == park)
      modifies this`tokenSeq, l
      ensures Valid()
      ensures tok == tokenSeq == Bump(old(tokenSeq))
      ensures l.View() == Armed(tok, now, owner, ttl)
    {
      tokenSeq := if tokenSeq == TWO32 - 1 then 0 else tokenSeq + 1;
      if tokenSeq == 0 {
        tokenSeq := tokenSeq + 1;
      }
      tok := tokenSeq;
      l.token := tok;
      l.ownerGen := owner;
      l.deadlineUs := (now + ttl) % 0x1_0000_0000_0000_0000;
      l.active := true;
    }

    method Renew(l: LeaseRecord, token: u32, now: u64, owner: u32, ttl: u64) returns (ok: bool)
      requires Valid() && (l == claim || l == park)
      modifies l
      ensures Valid()
      ensures ok <==> old(l.View()).active && old(l.View()).token == token
      ensures l.View() == Renewed(old(l.View()), token, now, owner, ttl)
    {
      ok := false;
      if l.active && l.token == token {
        l.deadlineUs := (now + ttl) % 0x1_0000_0000_0000_0000;
        if owner != 0 {
          l.ownerGen := owner;
        }
        ok := true;
      }
    }

    method Release(l: LeaseRecord, token: u32) returns (ok: bool)
      requires Valid() && (l == claim || l == park)
      modifies l
      ensures Valid()
      ensures l.View() == Released(old(l.View()), token)
      // The caller is told "yes" exactly when the lease is down and it was entitled to that.
      ensures ok <==> l.View() == DISARMED && (token == 0 || old(l.View()).token == token)
    {
      ok := false;
      if l.active && (token == 0 || l.token == token) {
        l.Clear();
        ok := true;
      } else if !l.active && token == 0 {
        ok := true;
      }
    }

    method Reap(l: LeaseRecord, token: u32, deadline: u64, now: u64) returns (ok: bool)
      requires Valid() && (l == claim || l == park)
      modifies l
      ensures Valid()
      ensures ok <==> Reapable(old(l.View()), token, deadline, now)
      ensures l.View() == Reaped(old(l.View()), token, deadline, now)
    {
      ok := false;
      if l.active && l.token == token && l.deadlineUs == deadline && deadline != 0 && now > deadline {
        l.Clear();
        ok := true;
      }
    }
  }

  /** Milliseconds since a 32-bit millisecond stamp, as can_diag_idle_ms computes it. */
  function IdleMs(nowUs: u64, stampMs: u32): u32 {
    (nowUs / 1000 - stampMs) % 0x1_0000_0000
  }

  const QUIESCE_MS := 300

  /**
   * The snapshot reads the clock before it reads the stamp. "Idle for 300 ms" is the truth unless a
   * diagnostic frame lands between the two reads in a later millisecond: then the difference wraps
   * and a frame that has only just been seen counts as weeks of silence.
   */
  lemma IdleVerdict(nowUs: u64, frameUs: u64)
    requires nowUs / 1000 - frameUs / 1000 < TWO32
    requires frameUs / 1000 - nowUs / 1000 <= TWO32 - 300
    ensures IdleMs(nowUs, (frameUs / 1000) % 0x1_0000_0000) >= 300
      <==> frameUs / 1000 > nowUs / 1000 || nowUs / 1000 - frameUs / 1000 >= 300
  {
    var n, f := nowUs / 1000, frameUs / 1000;
    var q := f / TWO32;
    assert f % 0x1_0000_0000 == f - q * TWO32;
    ModShift(n - f, q);
    var d := n - f;
    assert (n - f % 0x1_0000_0000) % 0x1_0000_0000 == d % 0x1_0000_0000;
    if d >= 0 {
      assert d % 0x1_0000_0000 == d;
    } else {
      assert d % 0x1_0000_0000 == d + TWO32;
    }
  }

  lemma ModShift(d: int, q: int)
    ensures (d + q * TWO32) % 0x1_0000_0000 == d % 0x1_0000_0000
  {
  }

  /** The wrap is real: a frame one millisecond after the clock read reads as idle. */
  lemma FreshFrameReadsIdle()
    ensures IdleMs(5_000_000, 5001) == TWO32 - 1
  {
  }
}
