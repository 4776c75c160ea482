/**
 * The wake-on-CAN throttle of main/can_wake.c: wake windows, the streak of fruitless wakes, and a
 * cooldown on the monotonic clock whose deadline is mirrored to wall-clock RTC memory.
 *
 * Clock reads are parameters: `now` is esp_timer in microseconds since boot, `wall` is time() in
 * seconds.
 */
module CanWake {
  import opened Words

  const CONFIRM_EDGES := 20
  const CONFIRM_RISES := 2
  const FRUITLESS_LIMIT := 3
  const COOLDOWN_S := 3600
  const COOLDOWN_US := 3_600_000_000
  const RTC_MAGIC: u32 := 0x4357_4B33
  /** A larger streak found at boot is taken for a torn write. */
  const ABSURD := 100

  /** The part that survives a reset: `epoch` is the wall-clock second at which the cooldown ends. */
  datatype Rtc = Rtc(magic: u32, fruitless: nat, epoch: int)

  /** `until` is the esp_timer deadline of the cooldown; zero when none is armed. */
  datatype Throttle = Throttle(open: bool, volt: bool, ecu: bool, fruitless: nat, until: int, rtc: Rtc)

  datatype Verdict = Confirmed | StuckLow | Quiet

  // ---- The confirmation sample -----------------------------------------------------------

  function Transitions(s: seq<bool>): nat {
    if |s| <= 1 then 0
    else Transitions(s[..|s| - 1]) + if s[|s| - 1] != s[|s| - 2] then 1 else 0
  }

  function Rises(s: seq<bool>): nat {
    if |s| <= 1 then 0
    else Rises(s[..|s| - 1]) + if s[|s| - 1] && !s[|s| - 2] then 1 else 0
  }

  /** The line fell, or started low, and never came back up. */
  ghost predicate HeldLow(s: seq<bool>) { exists k :: LowFrom(s, k) }

  predicate LowFrom(s: seq<bool>, k: int) {
    0 <= k < |s| && (forall i | 0 <= i < k :: s[i]) && (forall i | k <= i < |s| :: !s[i])
  }

  /** Rises and falls alternate. */
  lemma {:induction false} RisesAreHalf(s: seq<bool>)
    requires s != []
    ensures 2 * Rises(s) == Transitions(s) + (if s[|s| - 1] then 1 else 0) - (if s[0] then 1 else 0)
  {
    if |s| > 1 { RisesAreHalf(s[..|s| - 1]); }
  }

  lemma OneReading(s: seq<bool>, level: bool)
    requires s != []
    ensures Transitions(s + [level]) == Transitions(s) + if level != s[|s| - 1] then 1 else 0
    ensures Rises(s + [level]) == Rises(s) + if level && !s[|s| - 1] then 1 else 0
    ensures |s| == 1 ==> Transitions(s) == 0 && Rises(s) == 0
  {
    var t := s + [level];
    assert t[..|t| - 1] == s && t[|t| - 1] == level && t[|t| - 2] == s[|s| - 1];
  }

  lemma {:induction false} TransitionsGrow(s: seq<bool>, n: nat)
    requires n <= |s|
    ensures Transitions(s[..n]) <= Transitions(s)
  {
    if n == |s| {
      assert s[..n] == s;
    } else {
      TransitionsGrow(s[..|s| - 1], n);
      assert s[..|s| - 1][..n] == s[..n];
    }
  }

  lemma {:induction false} NoRiseMeansHeld(s: seq<bool>)
    requires s != []
    ensures Rises(s) == 0 && false in s <==> HeldLow(s)
  {
    var n := |s| - 1;
    if n == 0 {
      assert !s[0] ==> LowFrom(s, 0);
    } else {
      var t := s[..n];
      NoRiseMeansHeld(t);
      if Rises(s) == 0 && false in s {
        if HeldLow(t) {
          var k :| LowFrom(t, k);
          assert !t[n - 1];
          assert LowFrom(s, k);
        } else {
          assert forall i | 0 <= i < n :: s[i] == t[i];
          assert false !in t;
          assert LowFrom(s, n);
        }
      }
      if HeldLow(s) {
        var k :| LowFrom(s, k);
        assert !s[n] && !s[k];
        if k < n { assert LowFrom(t, k); } else { NeverLowNeverRises(t); }
      }
    }
  }

  lemma {:induction false} NeverLowNeverRises(s: seq<bool>)
    requires forall i | 0 <= i < |s| :: s[i]
    ensures Rises(s) == 0
  {
    if |s| > 1 { NeverLowNeverRises(s[..|s| - 1]); }
  }

  /**
   * The sampler. `levels` is what the pin shows: the first read, then every read until the clock
   * passes the end of the window. The line is called live exactly when it changed level twenty
   * times (the second condition, two rises, never decides), and stuck exactly when it fell and
   * stayed down; so a line held low can never confirm.
   */
  method Confirm(levels: seq<bool>) returns (v: Verdict, edges: nat, rises: nat)
    requires levels != []
    ensures v == Confirmed <==> Transitions(levels) >= 20
    ensures v == StuckLow <==> HeldLow(levels)
    ensures v != Confirmed ==> edges == Transitions(levels) && rises == Rises(levels)
    ensures v == Confirmed ==> edges == 20
  {
    hide Transitions, Rises, HeldLow;
    NoRiseMeansHeld(levels);
    RisesAreHalf(levels);
    OneReading(levels[..1], levels[0]);
    assert levels[..1] == [levels[0]];
    var prev, low := levels[0], !levels[0];
    var tick := 1;
    edges, rises := 0, 0;
    while tick < |levels|
      invariant 1 <= tick <= |levels|
      invariant prev == levels[tick - 1] && (low <==> false in levels[..tick])
      invariant edges == Transitions(levels[..tick]) < CONFIRM_EDGES && rises == Rises(levels[..tick])
    {
      var level := levels[tick];
      OneReading(levels[..tick], level);
      assert levels[..tick + 1] == levels[..tick] + [level];
      if level != prev {
        edges := edges + 1;
        if level { rises := rises + 1; } else { low := true; }
        prev := level;
        if edges >= CONFIRM_EDGES && rises >= CONFIRM_RISES {
          TransitionsGrow(levels, tick + 1);
          return Confirmed, edges, rises;
        }
        RisesAreHalf(levels[..tick + 1]);
      }
      tick := tick + 1;
    }
    assert levels[..tick] == levels;
    if rises == 0 && low {
      v := StuckLow;
    } else {
      v := Quiet;
    }
  }

  // ---- The operations on values ----------------------------------------------------------

  function Cleared(w: Throttle): Throttle {
    w.(fruitless := 0, until := 0, rtc := w.rtc.(fruitless := 0, epoch := 0))
  }

  /** can_wake_note_wake: open a window. */
  function Woken(w: Throttle): Throttle { w.(open := true, volt := false, ecu := false) }

  /** can_wake_note_sleep_entry: close the window and score it. */
  function Slept(w: Throttle, now: int, wall: int): Throttle {
    if !w.open then w
    else
      var c := w.(open := false);
      if c.volt || c.ecu then Cleared(c)
      else
        var f := c.fruitless + 1;
        if f >= FRUITLESS_LIMIT
        then c.(fruitless := f, until := now + COOLDOWN_US, rtc := c.rtc.(fruitless := f, epoch := wall + COOLDOWN_S))
        else c.(fruitless := f, rtc := c.rtc.(fruitless := f))
  }

  /** can_wake_note_voltage_ok */
  function VoltageSeen(w: Throttle): Throttle {
    var c := if w.fruitless != 0 then Cleared(w) else w;
    if c.open then c.(volt := true) else c
  }

  /** can_wake_note_ecu_ok */
  function EcuSeen(w: Throttle): Throttle {
    var c := if w.fruitless != 0 then Cleared(w) else w;
    if c.open then c.(ecu := true) else c
  }

  predicate Cooling(w: Throttle, now: int) { w.until > 0 && now < w.until }

  /** What asking can_wake_in_cooldown leaves behind: a deadline that has passed is disarmed. */
  function Asked(w: Throttle, now: int): Throttle {
    if w.until > 0 && now >= w.until then w.(until := 0, rtc := w.rtc.(epoch := 0)) else w
  }

  /** can_wake_handle lets a wake through. */
  predicate Accepts(w: Throttle, v: Verdict, now: int) { v == Confirmed && !Cooling(w, now) }

  function Handled(w: Throttle, v: Verdict, now: int): Throttle { if v == Confirmed then Asked(w, now) else w }

  /** RTC contents a boot does not trust are reset. */
  function Trusted(r: Rtc): Rtc {
    if r.magic != RTC_MAGIC then Rtc(RTC_MAGIC, 0, 0)
    else if r.fruitless > ABSURD then r.(fruitless := 0, epoch := 0)
    else r
  }

  /** can_wake_boot_init, from whatever RTC memory holds. */
  function Booted(rtc: Rtc, wokeOnCan: bool, now: int, wall: int): Throttle {
    var r := Trusted(rtc);
    var w := Throttle(false, false, false, r.fruitless, 0, r);
    if wokeOnCan then Woken(w)
    else if w.fruitless < FRUITLESS_LIMIT then w
    else if r.epoch > wall && r.epoch - wall <= 2 * COOLDOWN_S then w.(until := now + (r.epoch - wall) * 1_000_000)
    else if 0 < r.epoch <= wall then w.(rtc := r.(epoch := 0))
    else w.(until := now + COOLDOWN_US, rtc := r.(epoch := wall + COOLDOWN_S))
  }

  // ---- The program's own state -----------------------------------------------------------

  class CanWakeThrottle {
    var rtcMagic: u32
    var rtcFruitless: nat
    var rtcEpoch: int
    var wakeOpen: bool
    var voltOkSeen: bool
    var ecuOkSeen: bool
    var fruitless: nat
    var cooldownUntilUs: int

    function State(): Throttle
      reads this
    {
      Throttle(wakeOpen, voltOkSeen, ecuOkSeen, fruitless, cooldownUntilUs, Memory())
    }

    function Memory(): Rtc
      reads this
    {
      Rtc(rtcMagic, rtcFruitless, rtcEpoch)
    }

    method BootInit(wokeOnCan: bool, now: int, wall: int)
      requires !ecuOkSeen
      modifies this
      ensures State() == Booted(old(Memory()), wokeOnCan, now, wall)
    {
      if rtcMagic != RTC_MAGIC {
        rtcMagic, rtcFruitless, rtcEpoch := RTC_MAGIC, 0, 0;
      } else if rtcFruitless > ABSURD {
        rtcFruitless, rtcEpoch := 0, 0;
      }
      fruitless := rtcFruitless;
      wakeOpen, voltOkSeen := false, false;
      cooldownUntilUs := 0;
      if wokeOnCan {
        NoteWake();
      } else if fruitless >= FRUITLESS_LIMIT {
        if rtcEpoch > wall && rtcEpoch - wall <= 2 * COOLDOWN_S {
          cooldownUntilUs := now + (rtcEpoch - wall) * 1_000_000;
        } else if rtcEpoch > 0 && rtcEpoch <= wall {
          rtcEpoch := 0;
        } else {
          cooldownUntilUs := now + COOLDOWN_US;
          rtcEpoch := wall + COOLDOWN_S;
        }
      }
    }

    method NoteWake()
      modifies this
      ensures State() == Woken(old(State()))
    {
      wakeOpen := true;
      voltOkSeen := false;
      ecuOkSeen := false;
    }

    method NoteSleepEntry(now: int, wall: int)
      modifies this
      ensures State() == Slept(old(State()), now, wall)
    {
      if !wakeOpen {
        return;
      }
      wakeOpen := false;
      if voltOkSeen || ecuOkSeen {
        fruitless := 0;
        cooldownUntilUs := 0;
        rtcEpoch := 0;
      } else {
        fruitless := fruitless + 1;
        if fruitless >= FRUITLESS_LIMIT {
          cooldownUntilUs := now + COOLDOWN_US;
          rtcEpoch := wall + COOLDOWN_S;
        }
      }
      rtcFruitless := fruitless;
    }

    method NoteVoltageOk()
      modifies this
      ensures State() == VoltageSeen(old(State()))
    {
      if fruitless != 0 {
        fruitless, rtcFruitless := 0, 0;
        cooldownUntilUs, rtcEpoch := 0, 0;
      }
      if wakeOpen {
        voltOkSeen := true;
      }
    }

    method NoteEcuOk()
      modifies this
      ensures State() == EcuSeen(old(State()))
    {
      if fruitless != 0 {
        fruitless, rtcFruitless := 0, 0;
        cooldownUntilUs, rtcEpoch := 0, 0;
      }
      if wakeOpen {
        ecuOkSeen := true;
      }
    }

    method InCooldown(now: int) returns (cooling: bool)
      modifies this
      ensures cooling == Cooling(old(State()), now) && State() == Asked(old(State()), now)
    {
      if cooldownUntilUs <= 0 {
        return false;
      }
      if now >= cooldownUntilUs {
        cooldownUntilUs := 0;
        rtcEpoch := 0;
        return false;
      }
      return true;
    }

    method Handle(v: Verdict, now: int) returns (accepted: bool)
      modifies this
      ensures accepted == Accepts(old(State()), v, now) && State() == Handled(old(State()), v, now)
    {
      match v {
        case Confirmed =>
          var cooling := InCooldown(now);
          accepted := !cooling;
        case StuckLow =>
          accepted := false;
        case Quiet =>
          accepted := false;
      }
    }
  }

  // ---- Runs ------------------------------------------------------------------------------

  datatype Event =
    | Boot(wokeOnCan: bool, now: int, wall: int)
    | Wake
    | Sleep(now: int, wall: int)
    | Voltage
    | Ecu
    | Handle(v: Verdict, now: int)
    | Ask(now: int)

  function Step(w: Throttle, e: Event): Throttle {
    match e
    case Boot(c, now, wall) => Booted(w.rtc, c, now, wall)
    case Wake => Woken(w)
    case Sleep(now, wall) => Slept(w, now, wall)
    case Voltage => VoltageSeen(w)
    case Ecu => EcuSeen(w)
    case Handle(v, now) => Handled(w, v, now)
    case Ask(now) => Asked(w, now)
  }

  function After(w: Throttle, es: seq<Event>): Throttle
    decreases |es|
  {
    if es == [] then w else After(Step(w, es[0]), es[1..])
  }

  predicate Consistent(w: Throttle) {
    && (w.until > 0 ==> w.fruitless >= 3)
    && w.rtc.fruitless == w.fruitless && w.rtc.magic == 0x4357_4B33
  }

  /**
   * Whatever RTC memory held at power-on, and whatever happened since: an armed cooldown means a
   * streak of at least three, and the copy of the streak in RTC memory is never behind.
   */
  lemma {:induction false} AlwaysConsistent(garbage: Rtc, wokeOnCan: bool, now: int, wall: int, es: seq<Event>)
    ensures Consistent(After(Booted(garbage, wokeOnCan, now, wall), es))
  {
    ConsistentStays(Booted(garbage, wokeOnCan, now, wall), es);
  }

  lemma {:induction false} ConsistentStays(w: Throttle, es: seq<Event>)
    requires Consistent(w)
    ensures Consistent(After(w, es))
    decreases |es|
  {
    if es != [] { ConsistentStays(Step(w, es[0]), es[1..]); }
  }

  /**
   * A boot believes a streak with the right magic and of at most 100, and starts from zero otherwise.
   * If CAN caused it, it is itself a wake: without a proof the next sleep entry adds one to the streak
   * and from three on arms an hour; with a proof it clears the streak.
   */
  lemma CanBootIsAWake(rtc: Rtc, now: int, wall: int, proof: Event, at: int, scored: int)
    requires (proof.Voltage? || proof.Ecu?) && at > 0
    ensures var f := if rtc.magic == 0x4357_4B33 && rtc.fruitless <= 100 then rtc.fruitless else 0;
      var w := Booted(rtc, true, now, wall);
      var lost, won := Slept(w, at, scored), Slept(Step(w, proof), at, scored);
      && w.fruitless == Booted(rtc, false, now, wall).fruitless == f
      && lost.fruitless == lost.rtc.fruitless == f + 1 && won.fruitless == won.rtc.fruitless == 0
      && lost.until == (if f + 1 >= 3 then at + 3_600_000_000 else 0) && won.until == 0
  {
  }

  // ---- The rate of wakes within one boot -------------------------------------------------

  /** An accepted wake is opened, then scored at a sleep entry, before the bus is judged again. */
  datatype Phase = Asleep | Allowed | Awake

  /** The event is timed at or after `t`. */
  predicate NotBefore(e: Event, t: int) {
    match e
    case Sleep(now, _) => now >= t
    case Handle(_, now) => now >= t
    case Ask(now) => now >= t
    case _ => true
  }

  function TimeOf(e: Event, t: int): int {
    match e
    case Sleep(now, _) => now
    case Handle(_, now) => now
    case Ask(now) => now
    case _ => t
  }

  /** A run within one boot, in time order from `t`, that opens and scores every accepted wake and sees no proof. */
  predicate Fruitless(w: Throttle, es: seq<Event>, p: Phase, t: int)
    decreases |es|
  {
    es == [] ||
    var e, w' := es[0], Step(w, es[0]);
    && NotBefore(e, t)
    && match e
       case Boot(_, _, _) => false
       case Voltage => false
       case Ecu => false
       case Ask(now) => Fruitless(w', es[1..], p, now)
       case Wake => p == Allowed && Fruitless(w', es[1..], Awake, t)
       case Sleep(now, _) => p != Allowed && Fruitless(w', es[1..], Asleep, now)
       case Handle(v, now) => p == Asleep && Fruitless(w', es[1..], if Accepts(w, v, now) then Allowed else Asleep, now)
  }

  /** When wakes were let through. */
  function AcceptTimes(w: Throttle, es: seq<Event>): seq<int>
    decreases |es|
  {
    if es == [] then []
    else
      var e := es[0];
      (if e.Handle? && Accepts(w, e.v, e.now) then [e.now] else []) + AcceptTimes(Step(w, e), es[1..])
  }

  predicate InPhase(w: Throttle, p: Phase) { w.open == (p == Awake) && (p == Awake ==> !w.volt && !w.ecu) }

  function Hours(n: int): int { n * 3_600_000_000 }

  /** Wakes that are still free before an hour has to pass. */
  function Free(w: Throttle, p: Phase): int {
    (if w.fruitless >= 2 then 1 else 3 - w.fruitless) - (if p == Asleep then 0 else 1)
  }

  /** The earliest time the next wake can be let through. */
  function Earliest(w: Throttle, p: Phase, t: int): int {
    if p == Asleep && w.fruitless >= 3 && w.until > t then w.until else t
  }

  /** The j-th wake from here, counted from one, is let through no earlier than this. */
  function NotUntil(w: Throttle, p: Phase, t: int, j: int): int { Earliest(w, p, t) + Hours(j - Free(w, p)) }

  function NextPhase(w: Throttle, e: Event, p: Phase): Phase {
    match e
    case Wake => Awake
    case Sleep(_, _) => Asleep
    case Handle(v, now) => if Accepts(w, v, now) then Allowed else Asleep
    case _ => p
  }

  predicate LetsThrough(w: Throttle, e: Event) { e.Handle? && Accepts(w, e.v, e.now) }

  lemma BoundStands(w: Throttle, es: seq<Event>, p: Phase, t: int, j: nat)
    requires t >= 0 && InPhase(w, p) && es != [] && Fruitless(w, es, p, t)
    ensures var w', p', t' := Step(w, es[0]), NextPhase(w, es[0], p), TimeOf(es[0], t);
      && t' >= t && InPhase(w', p') && Fruitless(w', es[1..], p', t')
      && (if LetsThrough(w, es[0])
          then t' >= NotUntil(w, p, t, 1) && NotUntil(w', p', t', j) >= NotUntil(w, p, t, j + 1)
          else NotUntil(w', p', t', j) >= NotUntil(w, p, t, j))
  {
  }

  lemma {:induction false} WakesWait(w: Throttle, es: seq<Event>, p: Phase, t: int, j: nat)
    requires t >= 0 && InPhase(w, p) && Fruitless(w, es, p, t) && j < |AcceptTimes(w, es)|
    ensures AcceptTimes(w, es)[j] >= NotUntil(w, p, t, j + 1)
    decreases |es|
  {
    hide Fruitless, InPhase, NotUntil, NextPhase, Step, TimeOf, Accepts;
    var e, w', p', t' := es[0], Step(w, es[0]), NextPhase(w, es[0], p), TimeOf(es[0], t);
    var rest := AcceptTimes(w', es[1..]);
    if LetsThrough(w, e) {
      BoundStands(w, es, p, t, j);
      assert AcceptTimes(w, es) == [e.now] + rest;
      assert t' == e.now by { TimeOfHandle(e, t); }
      if j > 0 { WakesWait(w', es[1..], p', t', j - 1); }
    } else {
      BoundStands(w, es, p, t, j + 1);
      assert AcceptTimes(w, es) == rest;
      WakesWait(w', es[1..], p', t', j);
    }
  }

  lemma TimeOfHandle(e: Event, t: int)
    requires e.Handle?
    ensures TimeOf(e, t) == e.now
  {
  }

  /**
   * The battery bound: within one boot, when no wake leads anywhere, any n wakes let through span at
   * least (n-3) hours: counted from the i-th to the j-th, n is j-i+1.
   */
  lemma {:induction false} FruitlessWakesAreRare(w: Throttle, es: seq<Event>, p: Phase, t: int, i: nat, j: nat)
    requires t >= 0 && InPhase(w, p) && Fruitless(w, es, p, t)
    requires i <= j < |AcceptTimes(w, es)|
    ensures AcceptTimes(w, es)[j] - AcceptTimes(w, es)[i] >= Hours(j - i + 1 - 3)
    decreases |es|
  {
    var e, w', p', t' := es[0], Step(w, es[0]), NextPhase(w, es[0], p), TimeOf(es[0], t);
    var rest := AcceptTimes(w', es[1..]);
    BoundStands(w, es, p, t, 0);
    if LetsThrough(w, e) {
      assert AcceptTimes(w, es) == [e.now] + rest;
      if i > 0 {
        FruitlessWakesAreRare(w', es[1..], p', t', i - 1, j - 1);
      } else if j > 0 {
        WakesWait(w', es[1..], p', t', j - 1);
      }
    } else {
      assert AcceptTimes(w, es) == rest;
      FruitlessWakesAreRare(w', es[1..], p', t', i, j);
    }
  }

  function WallAt(atBoot: int, t: int): int { atBoot + t / 1_000_000 }

  /** The bus chirps as soon as a wake is let through again, and no wake leads anywhere. */
  function Chirps(f: nat, t: int, wall: int, n: nat): seq<Event>
    decreases n
  {
    if n == 0 then []
    else [Handle(Confirmed, t), Wake, Sleep(t, WallAt(wall, t))] + Chirps(f + 1, NextChirp(f, t), wall, n - 1)
  }

  function NextChirp(f: nat, t: int): int { if f + 1 >= 3 then t + 3_600_000_000 else t }

  function ChirpTimes(f: nat, t: int, n: nat): seq<int>
    decreases n
  {
    if n == 0 then [] else [t] + ChirpTimes(f + 1, NextChirp(f, t), n - 1)
  }

  lemma ChirpIsAWake(w: Throttle, t: int, wall: int, more: seq<Event>)
    requires !w.open && t >= 0 && w.until <= t
    ensures var es := [Handle(Confirmed, t), Wake, Sleep(t, wall)] + more;
      var v := Slept(Woken(Handled(w, Confirmed, t)), t, wall);
      && After(w, es) == After(v, more)
      && AcceptTimes(w, es) == [t] + AcceptTimes(v, more)
      && (Fruitless(v, more, Asleep, t) ==> Fruitless(w, es, Asleep, t))
      && !v.open && v.fruitless == w.fruitless + 1 && v.until <= NextChirp(w.fruitless, t)
  {
    var a, b, c := Handle(Confirmed, t), Wake, Sleep(t, wall);
    var es := [a, b, c] + more;
    assert es[0] == a && es[1..] == [b, c] + more;
    assert es[1..][0] == b && es[1..][1..] == [c] + more;
    assert ([c] + more)[0] == c && ([c] + more)[1..] == more;
    var w1 := Step(w, a);
    var w2 := Step(w1, b);
    assert After(w1, es[1..]) == After(w2, [c] + more) == After(Step(w2, c), more);
    assert AcceptTimes(w1, es[1..]) == AcceptTimes(w2, [c] + more) == AcceptTimes(Step(w2, c), more);
  }

  lemma LaterIsStillFruitless(w: Throttle, es: seq<Event>, p: Phase, t: int, t': int)
    requires Fruitless(w, es, p, t') && t <= t' && p == Asleep
    requires es != [] ==> es[0].Handle?
    ensures Fruitless(w, es, p, t)
  {
  }

  lemma {:induction false} ChirpsAreFruitless(w: Throttle, t: int, wall: int, n: nat)
    requires !w.open && t >= 0 && w.until <= t
    ensures var es := Chirps(w.fruitless, t, wall, n);
      && Fruitless(w, es, Asleep, t) && AcceptTimes(w, es) == ChirpTimes(w.fruitless, t, n)
      && After(w, es).fruitless == w.fruitless + n
    decreases n
  {
    if n > 0 {
      var f, t' := w.fruitless, NextChirp(w.fruitless, t);
      var more := Chirps(f + 1, t', wall, n - 1);
      var v := Slept(Woken(Handled(w, Confirmed, t)), t, WallAt(wall, t));
      ChirpIsAWake(w, t, WallAt(wall, t), more);
      hide Slept, Woken, Handled, Fruitless, AcceptTimes, After;
      ChirpsAreFruitless(v, t', wall, n - 1);
      LaterIsStillFruitless(v, more, Asleep, t, t');
    }
  }

  lemma {:induction false} ChirpTimesAre(f: nat, t: int, n: nat, j: nat)
    requires j < n
    ensures |ChirpTimes(f, t, n)| == n
    ensures ChirpTimes(f, t, n)[j] == t + Hours(if f >= 2 then j else if f + j >= 2 then f + j - 2 else 0)
    decreases n
  {
    if n > 1 {
      ChirpTimesAre(f + 1, NextChirp(f, t), n - 1, if j > 0 then j - 1 else 0);
    }
  }

  /**
   * The bound cannot be improved: after any boot with a clean streak there is a run in which n wakes
   * lead nowhere and span exactly n-3 hours. It ends with a streak of n.
   */
  lemma TheBoundIsMet(rtc: Rtc, wall: int, n: nat) returns (es: seq<Event>)
    requires n >= 3 && Trusted(rtc).fruitless == 0
    ensures var w := Booted(rtc, false, 0, wall);
      && Fruitless(w, es, Asleep, 0) && |AcceptTimes(w, es)| == n
      && AcceptTimes(w, es)[n - 1] - AcceptTimes(w, es)[0] == Hours(n - 3)
      && After(w, es).fruitless == n
  {
    var w := Booted(rtc, false, 0, wall);
    es := Chirps(0, 0, wall, n);
    ChirpsAreFruitless(w, 0, wall, n);
    ChirpTimesAre(0, 0, n, 0);
    ChirpTimesAre(0, 0, n, n - 1);
  }

  // ---- A chattering bus cannot lock the feature off --------------------------------------

  /** What happens while the device stays asleep: verdicts, arming checks and further sleep entries. */
  predicate Chatter(es: seq<Event>) {
    forall i | 0 <= i < |es| :: es[i].Handle? || es[i].Ask? || es[i].Sleep?
  }

  /**
   * While no window is open, refused wakes never move the deadline, however many there are: it
   * stays where it was until it is found to have passed, and a confirmed wake at or after it is let
   * through.
   */
  lemma {:induction false} ChatterNeverMovesTheDeadline(w: Throttle, es: seq<Event>, now: int)
    requires !w.open && Chatter(es)
    ensures var w' := After(w, es);
      && !w'.open && w'.fruitless == w.fruitless && w'.until in {w.until, 0}
      && (w'.until != w.until ==> w'.rtc.epoch == 0) && (w'.until == w.until ==> w' == w)
      && (now >= w.until ==> Accepts(w', Confirmed, now))
      && forall v :: Accepts(w', v, now) ==> v == Confirmed && (w'.until > 0 ==> now >= w.until)
    decreases |es|
  {
    if es != [] {
      assert es[0].Handle? || es[0].Ask? || es[0].Sleep?;
      ChatterNeverMovesTheDeadline(Step(w, es[0]), es[1..], now);
    }
  }

  /**
   * Either proof, in or out of a window, refutes the streak at once: streak and cooldown are gone, a
   * confirmed wake is let through at any time, and an open window, whatever else happens in it,
   * scores as a success.
   */
  lemma ProofClearsEverything(w: Throttle, e: Event, es: seq<Event>, now: int, wall: int)
    requires Consistent(w)
    requires e.Voltage? || e.Ecu?
    requires forall i | 0 <= i < |es| :: es[i].Handle? || es[i].Ask? || es[i].Voltage? || es[i].Ecu?
    ensures var c := After(Step(w, e), es);
      && c.fruitless == 0 && c.rtc.fruitless == 0 && Accepts(c, Confirmed, now)
      && Slept(c, now, wall).fruitless == 0 && Accepts(Slept(c, now, wall), Confirmed, now)
    decreases |es|
  {
    StaysClear(Step(w, e), es, now, wall);
  }

  lemma {:induction false} StaysClear(w: Throttle, es: seq<Event>, now: int, wall: int)
    requires w.fruitless == 0 && w.until <= 0 && w.rtc.fruitless == 0 && (w.open ==> w.volt || w.ecu)
    requires forall i | 0 <= i < |es| :: es[i].Handle? || es[i].Ask? || es[i].Voltage? || es[i].Ecu?
    ensures var c := After(w, es);
      && c.fruitless == 0 && c.rtc.fruitless == 0 && Accepts(c, Confirmed, now)
      && Slept(c, now, wall).fruitless == 0 && Accepts(Slept(c, now, wall), Confirmed, now)
    decreases |es|
  {
    if es != [] {
      assert es[0].Handle? || es[0].Ask? || es[0].Voltage? || es[0].Ecu?;
      StaysClear(Step(w, es[0]), es[1..], now, wall);
    }
  }

  // ---- Reboots ---------------------------------------------------------------------------

  /** Real time in microseconds; a boot starts esp_timer at zero and the wall clock never jumps. */
  datatype Clock = Clock(bootedAt: int, offset: int)

  function EspTime(c: Clock, at: int): int { at - c.bootedAt }
  function WallTime(c: Clock, at: int): int { (at + c.offset) / 1_000_000 }

  /** When, in real time, an armed cooldown ends. */
  function RealEnd(w: Throttle, c: Clock): int { c.bootedAt + w.until }

  /** A life of the device after a cooldown was armed: chatter, and reboots not caused by CAN. */
  datatype Happening = Reset(at: int, booted: int) | Noise(e: Event)

  function Live(w: Throttle, c: Clock, h: Happening): (Throttle, Clock) {
    match h
    case Reset(at, booted) =>
      var d := Clock(booted, c.offset);
      (Booted(w.rtc, false, EspTime(d, at), WallTime(d, at)), d)
    case Noise(e) => (Step(w, e), c)
  }

  function Lives(w: Throttle, c: Clock, hs: seq<Happening>): (Throttle, Clock)
    decreases |hs|
  {
    if hs == [] then (w, c) else var n := Live(w, c, hs[0]); Lives(n.0, n.1, hs[1..])
  }

  /** Every reset happens after `armed` and while the stored deadline is still ahead. */
  predicate BeforeTheEnd(c: Clock, epoch: int, armed: int, hs: seq<Happening>) {
    forall i | 0 <= i < |hs| :: match hs[i]
      case Reset(at, booted) => booted <= at && armed <= at && WallTime(c, at) < epoch
      case Noise(e) => Chatter([e])
  }

  predicate KeepsTheEnd(w: Throttle, c: Clock, end: int, epoch: int, f: nat) {
    && !w.open && w.rtc == Rtc(0x4357_4B33, f, epoch) && w.fruitless == f
    && w.until > 0 && -1_000_000 < RealEnd(w, c) - end < 1_000_000
  }

  /**
   * A cooldown armed at real time `armed` survives any number of resets: as long as its end has not
   * been noticed, it ends within one second of where it was, however many resets there were. The
   * streak must be at most 100 for that; see ResetForgetsLongStreaks.
   */
  lemma {:induction false} ResetsKeepTheEnd(w: Throttle, c: Clock, armed: int, f: nat, hs: seq<Happening>)
    requires w.open && !w.volt && !w.ecu && Consistent(w) && w.fruitless + 1 == f
    requires 3 <= f <= 100 && c.bootedAt <= armed
    requires var a := Slept(w, EspTime(c, armed), WallTime(c, armed)); BeforeTheEnd(c, a.rtc.epoch, armed, hs)
    requires forall n: nat | n <= |hs| ::
      var a := Slept(w, EspTime(c, armed), WallTime(c, armed)); Lives(a, c, hs[..n]).0.until > 0
    ensures var a := Slept(w, EspTime(c, armed), WallTime(c, armed)); var l := Lives(a, c, hs);
      -1_000_000 < RealEnd(l.0, l.1) - (armed + 3_600_000_000) < 1_000_000
  {
    var a := Slept(w, EspTime(c, armed), WallTime(c, armed));
    EndStays(a, c, armed, armed + 3_600_000_000, a.rtc.epoch, f, hs);
  }

  lemma {:induction false} EndStays(w: Throttle, c: Clock, armed: int, end: int, epoch: int, f: nat, hs: seq<Happening>)
    requires KeepsTheEnd(w, c, end, epoch, f) && 3 <= f <= 100
    requires end == armed + 3_600_000_000 && epoch == WallTime(c, armed) + 3600
    requires BeforeTheEnd(c, epoch, armed, hs)
    requires forall n: nat | n <= |hs| :: Lives(w, c, hs[..n]).0.until > 0
    ensures var l := Lives(w, c, hs); KeepsTheEnd(l.0, l.1, end, epoch, f)
    decreases |hs|
  {
    if hs != [] {
      var h := hs[0];
      var n := Live(w, c, h);
      assert hs[..1] == [h] && Lives(n.0, n.1, []) == n;
      assert Lives(w, c, hs[..1]).0.until > 0;
      match h {
        case Reset(at, booted) => ResetKeeps(w, c, armed, f, at, booted);
        case Noise(e) => assert [e][0] == e;
      }
      forall k: nat | k <= |hs[1..]| ensures Lives(n.0, n.1, hs[1..][..k]).0.until > 0 {
        assert hs[..k + 1][1..] == hs[1..][..k] && hs[..k + 1][0] == h;
        assert Lives(w, c, hs[..k + 1]).0.until > 0;
      }
      EndStays(n.0, n.1, armed, end, epoch, f, hs[1..]);
    }
  }

  lemma ResetKeeps(w: Throttle, c: Clock, armed: int, f: nat, at: int, booted: int)
    requires w.rtc == Rtc(0x4357_4B33, f, WallTime(c, armed) + 3600) && 3 <= f <= 100
    requires booted <= at && armed <= at && WallTime(c, at) < w.rtc.epoch
    ensures var n := Live(w, c, Reset(at, booted)); KeepsTheEnd(n.0, n.1, armed + 3_600_000_000, w.rtc.epoch, f)
  {
    assert WallTime(c, armed) <= WallTime(c, at);
  }

  /**
   * What a reset makes of a cooldown whose stored deadline is ahead and no more than two hours away:
   * kept for exactly the remaining time if and only if the streak is 3 to 100. A longer streak is
   * taken for garbage and forgotten.
   */
  lemma ResetForgetsLongStreaks(w: Throttle, now: int, wall: int)
    requires Consistent(w) && now >= 0 && wall < w.rtc.epoch <= wall + 2 * 3600
    ensures var b := Booted(w.rtc, false, now, wall);
      && (Cooling(b, now) <==> 3 <= w.fruitless <= 100)
      && (Cooling(b, now) ==> b.until - now == (w.rtc.epoch - wall) * 1_000_000)
      && (w.fruitless > 100 ==> b.fruitless == 0 && Accepts(b, Confirmed, now))
  {
  }

  /** Such a streak is reached without any fault, 98 hours after the first of 101 wakes. */
  lemma ParkedCarsGetThere(rtc: Rtc, wall: int, now: int, later: int) returns (es: seq<Event>)
    requires Trusted(rtc).fruitless == 0
    ensures var w := Booted(rtc, false, 0, wall);
      && Fruitless(w, es, Asleep, 0) && |AcceptTimes(w, es)| == 101
      && AcceptTimes(w, es)[100] - AcceptTimes(w, es)[0] == Hours(98)
      && After(w, es).fruitless == 101
      && var b := Booted(After(w, es).rtc, false, now, later); b.fruitless == 0 && b.until == 0
  {
    es := TheBoundIsMet(rtc, wall, 101);
    AlwaysConsistent(rtc, false, 0, wall, es);
  }

  /**
   * Exactly when a boot that CAN did not cause cools down, for any RTC contents and clock: the trusted
   * streak is at the limit, and the stored deadline is not one that has passed. A deadline ahead by two
   * hours or less is kept, any other is replaced by an hour from now, and one that has passed is erased.
   */
  lemma BootCoolsExactlyThen(rtc: Rtc, now: int, wall: int)
    requires now >= 0
    ensures var r, b := Trusted(rtc), Booted(rtc, false, now, wall);
      && (Cooling(b, now) <==> r.fruitless >= 3 && !(0 < r.epoch <= wall))
      && (Cooling(b, now) ==>
            if wall < r.epoch <= wall + 7200
            then b.until - now == (r.epoch - wall) * 1_000_000 && b.rtc.epoch == r.epoch
            else b.until - now == 3_600_000_000 && b.rtc.epoch == wall + 3600)
      && (!Cooling(b, now) ==> b.until == 0 && (r.fruitless >= 3 ==> b.rtc.epoch == 0))
  {
  }

  /**
   * Exactly when a cooldown that has been served is served again: its deadline has passed, and the
   * next reset waits a full hour if and only if someone had asked before the reset, so that the
   * deadline was erased, and the streak is one the boot believes.
   */
  lemma ServedAgainExactlyWhenAsked(w: Throttle, asked: bool, now: int, later: int, wall: int)
    requires Consistent(w) && w.until > 0 && now >= w.until && later >= 0 && wall >= w.rtc.epoch > 0
    ensures var v := if asked then Asked(w, now) else w;
      var b := Booted(v.rtc, false, later, wall);
      && (Cooling(b, later) <==> asked && w.fruitless <= 100)
      && (Cooling(b, later) ==> b.until == later + 3_600_000_000)
  {
  }

  /**
   * A deadline found to have passed is erased, and the next reset that CAN did not cause takes "no
   * deadline" for a lost one: with a streak of 3 to 100 it serves another full hour, although the
   * first one was served.
   */
  lemma ServedHourIsServedAgain(w: Throttle, now: int, later: int, wall: int)
    requires Consistent(w) && w.until > 0 && now >= w.until && w.fruitless <= 100 && later >= 0 && wall >= 0
    ensures Accepts(w, Confirmed, now)
    ensures var b := Booted(Asked(w, now).rtc, false, later, wall);
      Cooling(b, later) && b.until == later + 3_600_000_000
  {
  }
}
