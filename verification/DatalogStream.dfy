/**
 * The live datalog stream of main/datalog_stream.c: a CSV writer task that queues whole messages in
 * a bounded ring and a stream task that sends them to one TCP client at a time. The only word they
 * share is the client generation.
 *
 * Whether a message fits the ring is left to the environment, so what is proved holds for every
 * ring size and every timing. Time is not modelled: a ping can go out at any turn of the loop.
 */
module DatalogStream {
  import opened Words

  const HDR_MAX := 8192
  const LINE_MAX := 128
  const FILE_MAX := 63
  /** STREAM_MSG_MAX without the five header bytes. */
  const TEXT_MAX := 2 * LINE_MAX + HDR_MAX

  // ---- Messages and their text -----------------------------------------------------------

  /** An opened trip, numbered in order of opening; an empty header is an unavailable one. */
  datatype Trip = Trip(n: nat, file: string, cols: int, hdr: string)

  datatype Payload = Idle | Close | Session(t: Trip) | Row(line: string)

  datatype Message = Message(gen: u32, drops: u32, payload: Payload)

  function Digits(n: nat): string {
    if n < 10 then [('0' as int + n) as char] else Digits(n / 10) + [('0' as int + n % 10) as char]
  }

  function Pow10(k: nat): nat { if k == 0 then 1 else 10 * Pow10(k - 1) }

  lemma {:induction false} DigitsLength(n: nat, k: nat)
    requires k >= 1 && n < Pow10(k)
    ensures |Digits(n)| <= k
  {
    if n >= 10 {
      assert k > 1;
      DigitsLength(n / 10, k - 1);
    }
  }

  function Signed(n: int): string { if n < 0 then "-" + Digits(-n) else Digits(n) }

  function SessionLine(t: Trip): string { "#session file=" + t.file + " cols=" + Signed(t.cols) + "\n" }

  function PayloadText(p: Payload): string {
    match p
    case Idle => "#idle\n"
    case Close => "#close\n"
    case Session(t) => SessionLine(t) + if t.hdr != [] then t.hdr else "#nohdr\n"
    case Row(line) => line
  }

  function DropText(drops: u32): string { if drops == 0 then "" else "#drop " + Digits(drops) + "\n" }

  /** The bytes of a message behind its generation and kind. */
  function Text(m: Message): string { DropText(m.drops) + PayloadText(m.payload) }

  lemma {:induction false} DigitsAreWritten(n: nat)
    ensures Digits(n) == Written(n)
  {
    if n >= 10 { DigitsAreWritten(n / 10); }
  }

  /** What a client reads for each kind of message. */
  lemma MessagesRead(gen: u32, n: u32, p: Payload)
    ensures Text(Message(gen, n, p)) == (if n == 0 then "" else "#drop " + Written(n) + "\n") + PayloadText(p)
    ensures p.Idle? ==> PayloadText(p) == "#idle\n"
    ensures p.Close? ==> PayloadText(p) == "#close\n"
    ensures p.Row? ==> PayloadText(p) == p.line
    ensures p.Session? ==>
      var cols := if p.t.cols < 0 then "-" + Written(-p.t.cols) else Written(p.t.cols);
      PayloadText(p) == "#session file=" + p.t.file + " cols=" + cols + "\n"
        + (if p.t.hdr == [] then "#nohdr\n" else p.t.hdr)
  {
    DigitsAreWritten(n);
    if p.Session? {
      DigitsAreWritten(if p.t.cols < 0 then -p.t.cols else p.t.cols);
    }
  }

  predicate TripOk(t: Trip) {
    |t.file| <= FILE_MAX && |t.hdr| <= HDR_MAX && -0x8000_0000 <= t.cols < 0x8000_0000
  }

  /** The fixed line buffers never truncate, and a sync message is never too long to queue. */
  lemma SyncAlwaysFits(t: Trip, drops: u32)
    requires TripOk(t)
    ensures |SessionLine(t)| <= LINE_MAX - 1 && |DropText(drops)| <= LINE_MAX - 1
    ensures |Text(Message(1, drops, Session(t)))| <= TEXT_MAX
  {
    assert Pow10(10) == 10_000_000_000 by {
      assert Pow10(5) == 100_000;
      assert Pow10(10) == 100_000 * Pow10(5);
    }
    DigitsLength(drops, 10);
    DigitsLength(if t.cols < 0 then -t.cols else t.cols, 10);
  }

  // ---- The writer ------------------------------------------------------------------------

  datatype Event = Open(path: string, cols: int, hdr: string) | Closed | RowLine(line: string) | Poll

  datatype Writer = Writer(trip: Option<Trip>, trips: nat, served: u32, syncPending: bool, syncFresh: bool,
                           drops: u32, dropped: nat)

  /** The part of a path after its last slash, cut to the size of s_sess_file. */
  function FileName(path: string): (f: string)
    ensures |f| <= FILE_MAX
  {
    var b := BaseName(path);
    if |b| > FILE_MAX then b[..FILE_MAX] else b
  }

  function BaseName(path: string): string {
    if path == [] then [] else if '/' in path then BaseName(path[1..]) else path
  }

  /** The name of a file does not depend on where it is. */
  lemma {:induction false} NameAfterSlash(dir: string, name: string)
    requires '/' !in name
    ensures FileName(dir + "/" + name) == FileName(name) == if |name| <= 63 then name else name[..63]
  {
    var path := dir + "/" + name;
    assert path[|dir|] == '/';
    if dir == [] {
      assert path[1..] == name;
    } else {
      assert path[1..] == dir[1..] + "/" + name;
      NameAfterSlash(dir[1..], name);
    }
  }

  function Note(w: Writer, ev: Event): Writer {
    match ev
    case Open(path, cols, hdr) =>
      w.(trip := Some(Trip(w.trips, FileName(path), cols, if |hdr| <= HDR_MAX then hdr else [])),
         trips := w.trips + 1, syncPending := true)
    case Closed => w.(trip := None, syncPending := true)
    case _ => w
  }

  /** A client the writer has not served yet starts with a full sync and owes it no drops. */
  function Serve(w: Writer, gen: u32): Writer {
    if gen == w.served then w
    else if gen == 0 then w.(served := 0)
    else w.(served := gen, syncPending := true, syncFresh := true, drops := 0)
  }

  function SyncPayload(w: Writer): Payload {
    if w.trip.Some? then Session(w.trip.value) else if w.syncFresh then Idle else Close
  }

  /** stream_put: None when the message is too long or the ring has no room for it. */
  function Put(w: Writer, gen: u32, p: Payload, fits: bool): Option<Message> {
    var m := Message(gen, w.drops, p);
    if |Text(m)| > TEXT_MAX || !fits then None else Some(m)
  }

  /** The state after an attempt to sync, and what was queued. */
  function TrySync(w: Writer, gen: u32, fits: bool): (Writer, seq<Message>) {
    var m := Put(w, gen, SyncPayload(w), fits);
    if !w.syncPending || m.None? then (w, [])
    else (w.(syncPending := false, syncFresh := false, drops := 0), [m.value])
  }

  /** A row is queued, or counted as lost: behind an unsent sync it must not overtake it. */
  function TryRow(w: Writer, gen: u32, ev: Event, fits: bool): (Writer, seq<Message>) {
    if !ev.RowLine? || ev.line == [] then (w, [])
    else
      var m := Put(w, gen, Row(ev.line), fits);
      if w.syncPending || m.None?
      then (w.(drops := (w.drops + 1) % 0x1_0000_0000, dropped := w.dropped + 1), [])
      else (w.(drops := 0), [m.value])
  }

  /** stream_hook as one call, with the generation it read and the fate of its two sends. */
  function Hook(w: Writer, ev: Event, gen: u32, syncFits: bool, rowFits: bool): (Writer, seq<Message>) {
    var w1 := Serve(Note(w, ev), gen);
    if gen == 0 then (w1, [])
    else
      var (w2, a) := TrySync(w1, gen, syncFits);
      var (w3, b) := TryRow(w2, gen, ev, rowFits);
      (w3, a + b)
  }

  class StreamWriter {
    var trip: Option<Trip>
    var trips: nat
    var servedGen: u32
    var syncPending: bool
    var syncFresh: bool
    var pendingDrops: u32
    var rowsDropped: nat
    var ring: seq<Message>

    function View(): Writer
      reads this
    {
      Writer(trip, trips, servedGen, syncPending, syncFresh, pendingDrops, rowsDropped)
    }

    constructor ()
      ensures View() == Writer(None, 0, 0, false, false, 0, 0) && ring == []
    {
      trip, trips, servedGen, syncPending, syncFresh := None, 0, 0, false, false;
      pendingDrops, rowsDropped, ring := 0, 0, [];
    }

    method StreamPut(gen: u32, p: Payload, fits: bool) returns (ok: bool)
      modifies this`pendingDrops, this`ring
      ensures var m := Put(old(View()), gen, p, fits);
        && ok == m.Some?
        && ring == old(ring) + (if ok then [m.value] else [])
        && pendingDrops == (if ok then 0 else old(pendingDrops))
    {
      var text := "";
      if pendingDrops != 0 {
        text := text + "#drop " + Digits(pendingDrops) + "\n";
      }
      if |text| + |PayloadText(p)| > TEXT_MAX {
        return false;
      }
      if !fits {
        return false;
      }
      ring := ring + [Message(gen, pendingDrops, p)];
      pendingDrops := 0;
      return true;
    }

    method NoteEvent(ev: Event)
      modifies this`trip, this`trips, this`syncPending
      ensures View() == Note(old(View()), ev)
    {
      match ev {
        case Open(path, cols, hdr) =>
          trip := Some(Trip(trips, FileName(path), cols, if |hdr| <= HDR_MAX then hdr else []));
          trips := trips + 1;
          syncPending := true;
        case Closed =>
          trip := None;
          syncPending := true;
        case _ =>
      }
    }

    method SyncIfPending(gen: u32, fits: bool)
      modifies this
      ensures var (w, sent) := TrySync(old(View()), gen, fits);
        View() == w && ring == old(ring) + sent
    {
      if syncPending {
        var put := StreamPut(gen, SyncPayload(View()), fits);
        if put {
          syncPending := false;
          syncFresh := false;
        }
      }
    }

    method EmitRow(gen: u32, ev: Event, fits: bool)
      modifies this
      ensures var (w, sent) := TryRow(old(View()), gen, ev, fits);
        View() == w && ring == old(ring) + sent
    {
      if ev.RowLine? && ev.line != [] {
        var put := false;
        if !syncPending {
          put := StreamPut(gen, Row(ev.line), fits);
        }
        if !put {
          pendingDrops := (pendingDrops + 1) % 0x1_0000_0000;
          rowsDropped := rowsDropped + 1;
        }
      }
    }

    method StreamHook(ev: Event, liveGen: u32, syncFits: bool, rowFits: bool)
      modifies this
      ensures var (w, sent) := Hook(old(View()), ev, liveGen, syncFits, rowFits);
        View() == w && ring == old(ring) + sent
    {
      hide Note, TrySync, TryRow;
      NoteEvent(ev);
      if liveGen == 0 {
        servedGen := 0;
        return;
      }
      if liveGen != servedGen {
        servedGen := liveGen;
        syncPending := true;
        syncFresh := true;
        pendingDrops := 0;
      }
      SyncIfPending(liveGen, syncFits);
      EmitRow(liveGen, ev, rowFits);
    }
  }

  // ---- The two tasks together ------------------------------------------------------------

  /** The writer inside a hook: the generation it read stays with it to the end. */
  datatype WriterPc = Resting | Syncing(ev: Event, gen: u32) | Rowing(ev: Event, gen: u32)

  datatype StreamPc = Looping | Greeting | Broken

  /**
   * What goes out on a connection. A cut message is one whose send failed part-way. A bye stands for as
   * much of its line, perhaps nothing, as the one send that does not wait has taken.
   */
  datatype Item = Hello | DirectIdle | Sent(m: Message) | Ping | Cut | Bye

  /** A row the writer emitted, and the trip that was open then. */
  datatype Emitted = Emitted(line: string, trip: Option<Trip>)

  /** A row event, and whether it had to be lost. */
  datatype RowEvent = RowEvent(row: Emitted, lost: bool)

  /** Histories, by client generation. */
  datatype Past = Past(last: nat, rows: map<nat, seq<RowEvent>>, queued: map<nat, seq<Message>>,
                       wire: map<nat, seq<Item>>)

  datatype Sys = Sys(w: Writer, wpc: WriterPc, ring: seq<Message>, live: u32, counter: u32, spc: StreamPc, past: Past)

  function At<T>(m: map<nat, seq<T>>, g: nat): seq<T> { if g in m then m[g] else [] }
  function Add<T>(m: map<nat, seq<T>>, g: nat, xs: seq<T>): map<nat, seq<T>> { m[g := At(m, g) + xs] }

  const BOOT := Sys(Writer(None, 0, 0, false, false, 0, 0), Resting, [], 0, 0, Looping, Past(0, map[], map[], map[]))

  datatype Action =
    | HookStart(ev: Event)
    | HookSync(fits: bool)
    | HookRow(fits: bool)
    | Adopt(helloOut: bool)
    | Greet(running: bool, ok: bool)
    | Receive(ok: bool)
    | SendPing(ok: bool)
    | Drop(replaced: bool)

  /**
   * The CSV writer emits rows only while a trip is open. Two counters are kept short of wrapping:
   * fewer than 2^32-1 connections, and fewer than 2^32-1 rows lost in a row.
   */
  predicate Enabled(s: Sys, a: Action) {
    match a
    case HookStart(ev) => s.wpc.Resting? && (ev.RowLine? ==> s.w.trip.Some?)
    case HookSync(_) => s.wpc.Syncing?
    case HookRow(_) => s.wpc.Rowing? && s.w.drops < TWO32 - 1
    case Adopt(_) => s.live == 0 && s.counter < TWO32 - 1
    case Greet(_, _) => s.live != 0 && s.spc.Greeting?
    case Receive(_) => s.live != 0 && s.spc.Looping? && s.ring != []
    case SendPing(_) => s.live != 0 && s.spc.Looping?
    case Drop(_) => s.live != 0 && !s.spc.Greeting?
  }

  /**
   * The only causes for losing a row: a state line has still to go out, the ring has no room, or the
   * row with its drop line is longer than a message may be.
   */
  predicate MustLose(w: Writer, line: string, fits: bool) {
    w.syncPending || !fits || |DropText(w.drops)| + |line| > 8448
  }

  function Transmit(s: Sys, items: seq<Item>): Sys { s.(past := s.past.(wire := Add(s.past.wire, s.live, items))) }

  function Enqueue(s: Sys, gen: u32, ms: seq<Message>): Sys {
    s.(ring := s.ring + ms, past := s.past.(queued := Add(s.past.queued, gen, ms)))
  }

  function Do(s: Sys, a: Action): Sys
    requires Enabled(s, a)
  {
    match a
    case HookStart(ev) =>
      var gen := s.live;
      s.(w := Serve(Note(s.w, ev), gen),
         wpc := if gen == 0 then Resting else Syncing(ev, gen),
         past := if gen == 0 then s.past else s.past.(last := gen))
    case HookSync(fits) =>
      var (w, ms) := TrySync(s.w, s.wpc.gen, fits);
      Enqueue(s, s.wpc.gen, ms).(w := w, wpc := Rowing(s.wpc.ev, s.wpc.gen))
    case HookRow(fits) =>
      var (w, ms) := TryRow(s.w, s.wpc.gen, s.wpc.ev, fits);
      var t := Enqueue(s, s.wpc.gen, ms).(w := w, wpc := Resting);
      if !s.wpc.ev.RowLine? || s.wpc.ev.line == [] then t
      else
        var row := RowEvent(Emitted(s.wpc.ev.line, s.w.trip), MustLose(s.w, s.wpc.ev.line, fits));
        t.(past := t.past.(rows := Add(t.past.rows, s.wpc.gen, [row])))
    case Adopt(helloOut) =>
      if !helloOut then s
      else Transmit(s.(live := Bump(s.counter), counter := Bump(s.counter), spc := Greeting), [Hello])
    case Greet(running, ok) =>
      if running then s.(spc := Looping)
      else if ok then Transmit(s, [DirectIdle]).(spc := Looping)
      else Transmit(s, [Cut]).(spc := Broken)
    case Receive(ok) =>
      var m := s.ring[0];
      var t := s.(ring := s.ring[1..]);
      if m.gen != s.live then t
      else if ok then Transmit(t, [Sent(m)])
      else Transmit(t, [Cut]).(spc := Broken)
    case SendPing(ok) => if ok then Transmit(s, [Ping]) else Transmit(s, [Cut]).(spc := Broken)
    case Drop(replaced) =>
      (if replaced then Transmit(s, [Bye]) else s).(live := 0, spc := Looping)
  }

  datatype Outcome = Stuck | Reached(s: Sys)

  function After(run: seq<Action>): Outcome {
    if run == [] then Reached(BOOT)
    else
      var o := After(run[..|run| - 1]);
      var a := run[|run| - 1];
      if o.Reached? && Enabled(o.s, a) then Reached(Do(o.s, a)) else Stuck
  }

  // ---- What a receiver can reconstruct ---------------------------------------------------

  function Gaps(n: nat): seq<Option<Emitted>> { seq(n, _ => None) }

  /**
   * The rows a list of messages accounts for, as its receiver reads it: a drop count stands for that
   * many unknown rows, and a row belongs to the trip of the session line, with header, it stands under.
   */
  function Expand(ms: seq<Message>): seq<Option<Emitted>> {
    if ms == [] then []
    else
      var front, m := ms[..|ms| - 1], ms[|ms| - 1];
      Expand(front) + Gaps(m.drops) + if m.payload.Row? then [Some(Emitted(m.payload.line, Context(front)))] else []
  }

  /** Every row is accounted for in its place: by its text and trip, or, if it had to be lost, as a gap. */
  predicate Accounts(xs: seq<Option<Emitted>>, rows: seq<RowEvent>) {
    |xs| == |rows| && forall i | 0 <= i < |xs| :: xs[i] == if rows[i].lost then None else Some(rows[i].row)
  }

  predicate AccountsForPrefix(xs: seq<Option<Emitted>>, rows: seq<RowEvent>) {
    |xs| <= |rows| && Accounts(xs, rows[..|xs|])
  }

  /** The trip that the last session, idle or close line put a receiver in. */
  function Context(ms: seq<Message>): Option<Trip> {
    if ms == [] then None
    else
      var p := ms[|ms| - 1].payload;
      match p
      case Session(t) => Some(t)
      case Row(_) => Context(ms[..|ms| - 1])
      case _ => None
  }

  function Received(items: seq<Item>): seq<Message> {
    if items == [] then []
    else Received(items[..|items| - 1]) + if items[|items| - 1].Sent? then [items[|items| - 1].m] else []
  }

  /** Hello, perhaps a direct idle line, whole messages and pings, perhaps a cut-off end and a bye. */
  predicate WellShaped(items: seq<Item>) {
    && (forall k | 0 <= k < |items| :: items[k].Hello? <==> k == 0)
    && (forall k | 0 <= k < |items| :: items[k].DirectIdle? ==> k == 1)
    && (forall k | 0 <= k < |items| - 1 :: items[k].Cut? ==> k == |items| - 2 && items[|items| - 1].Bye?)
    && (forall k | 0 <= k < |items| :: items[k].Bye? ==> k == |items| - 1)
  }

  function For(ms: seq<Message>, g: nat): seq<Message> {
    if ms == [] then []
    else For(ms[..|ms| - 1], g) + if ms[|ms| - 1].gen == g then [ms[|ms| - 1]] else []
  }

  // ---- Invariants ------------------------------------------------------------------------

  predicate Owned(ms: seq<Message>, g: nat) { forall i | 0 <= i < |ms| :: ms[i].gen == g }

  /** The writer's side of client `g`: its queue, its rows, and what is still pending for it. */
  predicate ClientOk(w: Writer, q: seq<Message>, rows: seq<RowEvent>, g: nat) {
    && Owned(q, g)
    && (if g == w.served && g != 0
        then Accounts(Expand(q) + Gaps(w.drops), rows) && (!w.syncPending ==> Context(q) == w.trip)
        else AccountsForPrefix(Expand(q), rows))
  }

  predicate QueueInv(w: Writer, p: Past, g: nat) {
    var q, rows := At(p.queued, g), At(p.rows, g);
    (g == 0 || g > p.last ==> q == [] && rows == []) && ClientOk(w, q, rows, g)
  }

  predicate StillOpen(items: seq<Item>) { forall k | 0 <= k < |items| :: !items[k].Cut? && !items[k].Bye? }
  predicate NoBye(items: seq<Item>) { forall k | 0 <= k < |items| :: !items[k].Bye? }

  /** The stream task's side: what was sent, what is queued, and what of it is still in the ring. */
  predicate ConnectionOk(q: seq<Message>, items: seq<Item>, ring: seq<Message>, spc: StreamPc, live: bool) {
    && Received(items) <= q && WellShaped(items) && items != []
    && (live && spc.Broken? ==> NoBye(items))
    && (live && spc.Greeting? ==> |items| == 1)
    && (live && !spc.Broken? ==> StillOpen(items) && q == Received(items) + ring)
  }

  predicate WireInv(s: Sys, g: nat) {
    var q, items := At(s.past.queued, g), At(s.past.wire, g);
    if g == 0 || g > s.counter then items == [] && (g != 0 ==> g != s.live)
    else ConnectionOk(q, items, For(s.ring, g), s.spc, g == s.live)
  }

  predicate GlobalInv(s: Sys) {
    && (forall i | 0 <= i < |s.ring| :: 1 <= s.ring[i].gen <= s.past.last)
    && s.past.last <= s.counter
    && (s.w.served == 0 || s.w.served == s.past.last)
    && (s.live != 0 ==> s.live == s.counter && (s.live == s.w.served || s.live > s.past.last))
    && (!s.wpc.Resting? ==> s.wpc.gen == s.w.served && s.wpc.gen != 0)
    && (!s.wpc.Resting? && s.wpc.ev.RowLine? ==> s.w.trip.Some?)
    && (s.spc.Greeting? || s.spc.Broken? ==> s.live != 0)
  }

  lemma StepKeepsGlobal(s: Sys, a: Action)
    requires GlobalInv(s) && Enabled(s, a)
    ensures GlobalInv(Do(s, a))
  {
  }

  lemma {:induction false} ForAppends(ms: seq<Message>, ns: seq<Message>, g: nat)
    ensures For(ms + ns, g) == For(ms, g) + For(ns, g)
  {
    if ns == [] {
      assert ms + ns == ms;
    } else {
      var n := ns[..|ns| - 1];
      assert (ms + ns)[..|ms + ns| - 1] == ms + n;
      ForAppends(ms, n, g);
      var last := if ns[|ns| - 1].gen == g then [ns[|ns| - 1]] else [];
      assert For(ms, g) + (For(n, g) + last) == For(ms, g) + For(n, g) + last;
    }
  }

  lemma ForOne(m: Message, g: nat)
    ensures For([m], g) == if m.gen == g then [m] else []
  {
    assert [m][..0] == [];
  }

  lemma {:induction false} NothingFor(ms: seq<Message>, g: nat)
    requires forall i | 0 <= i < |ms| :: ms[i].gen != g
    ensures For(ms, g) == []
  {
    if ms != [] {
      NothingFor(ms[..|ms| - 1], g);
    }
  }

  lemma ExpandOne(ms: seq<Message>, m: Message)
    ensures Expand(ms + [m]) == Expand(ms) + Gaps(m.drops)
      + if m.payload.Row? then [Some(Emitted(m.payload.line, Context(ms)))] else []
    ensures Context(ms + [m]) == match m.payload
      case Session(t) => Some(t)
      case Row(_) => Context(ms)
      case _ => None
  {
    assert (ms + [m])[..|ms|] == ms;
  }

  /** A message that took the pending drops along leaves nothing unaccounted for. */
  lemma PutAccounts(q: seq<Message>, m: Message, rows: seq<RowEvent>)
    requires Accounts(Expand(q) + Gaps(m.drops), rows)
    ensures Accounts(Expand(q + [m]) + Gaps(0),
                     if m.payload.Row? then rows + [RowEvent(Emitted(m.payload.line, Context(q)), false)] else rows)
  {
    ExpandOne(q, m);
  }

  lemma LossAccounts(xs: seq<Option<Emitted>>, drops: nat, rows: seq<RowEvent>, row: RowEvent)
    requires row.lost && Accounts(xs + Gaps(drops), rows)
    ensures Accounts(xs + Gaps(drops + 1), rows + [row])
  {
    assert xs + Gaps(drops + 1) == xs + Gaps(drops) + [None];
  }

  lemma AccountsThenPrefix(xs: seq<Option<Emitted>>, n: nat, rows: seq<RowEvent>)
    requires Accounts(xs + Gaps(n), rows)
    ensures AccountsForPrefix(xs, rows)
  {
    forall i | 0 <= i < |xs| ensures xs[i] == if rows[i].lost then None else Some(rows[i].row) {
      assert (xs + Gaps(n))[i] == xs[i];
    }
  }

  lemma HookStartKeepsQueue(s: Sys, ev: Event, g: nat)
    requires GlobalInv(s) && QueueInv(s.w, s.past, g) && Enabled(s, HookStart(ev))
    ensures var t := Do(s, HookStart(ev)); QueueInv(t.w, t.past, g)
  {
    var t := Do(s, HookStart(ev));
    var q, rows := At(s.past.queued, g), At(s.past.rows, g);
    if g == s.w.served && g != 0 && t.w.served != g {
      AccountsThenPrefix(Expand(q), s.w.drops, rows);
    }
    if g == t.w.served && g != 0 && s.w.served != g {
      assert q == [] && rows == [];
      assert Expand(q) + Gaps(0) == [];
    }
  }

  lemma SyncKeepsClient(w: Writer, gen: u32, fits: bool, q: seq<Message>, rows: seq<RowEvent>)
    requires gen == w.served && gen != 0 && ClientOk(w, q, rows, gen)
    ensures var (w', ms) := TrySync(w, gen, fits); ClientOk(w', q + ms, rows, gen)
  {
    var (w', ms) := TrySync(w, gen, fits);
    if ms == [] {
      assert q + ms == q;
    } else {
      hide Accounts, Context, Expand, Put;
      assert ms == [Message(gen, w.drops, SyncPayload(w))] by { PutIs(w, gen, SyncPayload(w), fits); }
      PutAccounts(q, ms[0], rows);
      ExpandOne(q, ms[0]);
    }
  }

  lemma PutIs(w: Writer, gen: u32, p: Payload, fits: bool)
    ensures Put(w, gen, p, fits).Some? ==> Put(w, gen, p, fits).value == Message(gen, w.drops, p)
  {
  }

  lemma RowIsLostExactlyThen(w: Writer, gen: u32, line: string, fits: bool)
    requires line != []
    ensures TryRow(w, gen, RowLine(line), fits).1 == [] <==> MustLose(w, line, fits)
  {
    assert |Text(Message(gen, w.drops, Row(line)))| == |DropText(w.drops)| + |line|;
  }

  lemma RowKeepsClient(w: Writer, gen: u32, line: string, fits: bool, q: seq<Message>, rows: seq<RowEvent>)
    requires gen == w.served && gen != 0 && ClientOk(w, q, rows, gen)
    requires line != [] && w.trip.Some? && w.drops < TWO32 - 1
    ensures var (w', ms) := TryRow(w, gen, RowLine(line), fits);
      ClientOk(w', q + ms, rows + [RowEvent(Emitted(line, w.trip), MustLose(w, line, fits))], gen)
  {
    var (w', ms) := TryRow(w, gen, RowLine(line), fits);
    PutIs(w, gen, Row(line), fits);
    RowIsLostExactlyThen(w, gen, line, fits);
    hide Accounts, Context, Expand, Put, MustLose;
    if ms == [] {
      assert q + ms == q;
      LossAccounts(Expand(q), w.drops, rows, RowEvent(Emitted(line, w.trip), true));
    } else {
      PutAccounts(q, ms[0], rows);
      ExpandOne(q, ms[0]);
    }
  }

  lemma HookSyncKeepsQueue(s: Sys, fits: bool, g: nat)
    requires GlobalInv(s) && QueueInv(s.w, s.past, g) && Enabled(s, HookSync(fits))
    ensures var t := Do(s, HookSync(fits)); QueueInv(t.w, t.past, g)
  {
    hide Accounts, Context, Expand, Put;
    if g == s.wpc.gen {
      SyncKeepsClient(s.w, g, fits, At(s.past.queued, g), At(s.past.rows, g));
    }
  }

  lemma HookRowKeepsQueue(s: Sys, fits: bool, g: nat)
    requires GlobalInv(s) && QueueInv(s.w, s.past, g) && Enabled(s, HookRow(fits))
    ensures var t := Do(s, HookRow(fits)); QueueInv(t.w, t.past, g)
  {
    hide Accounts, Context, Expand, Put;
    var ev := s.wpc.ev;
    var q := At(s.past.queued, g);
    assert q + [] == q;
    if g == s.wpc.gen && ev.RowLine? && ev.line != [] {
      RowKeepsClient(s.w, g, ev.line, fits, q, At(s.past.rows, g));
    }
  }

  lemma StepKeepsQueue(s: Sys, a: Action, g: nat)
    requires GlobalInv(s) && QueueInv(s.w, s.past, g) && Enabled(s, a)
    ensures var t := Do(s, a); QueueInv(t.w, t.past, g)
  {
    match a
    case HookStart(ev) => HookStartKeepsQueue(s, ev, g);
    case HookSync(fits) => HookSyncKeepsQueue(s, fits, g);
    case HookRow(fits) => HookRowKeepsQueue(s, fits, g);
    case _ =>
  }

  /** Queueing for `gen` keeps the stream task's side of every client. */
  lemma EnqueueKeepsWire(s: Sys, gen: u32, ms: seq<Message>, g: nat)
    requires WireInv(s, g) && Owned(ms, gen)
    ensures WireInv(Enqueue(s, gen, ms), g)
  {
    hide WellShaped, Received, For;
    var r, got := For(s.ring, g), Received(At(s.past.wire, g));
    ForAppends(s.ring, ms, g);
    if g == gen {
      AllFor(ms, g);
      assert got + r + ms == got + (r + ms);
    } else {
      NothingFor(ms, g);
      assert r + [] == r;
    }
  }

  lemma {:induction false} AllFor(ms: seq<Message>, g: nat)
    requires Owned(ms, g)
    ensures For(ms, g) == ms
  {
    if ms != [] {
      AllFor(ms[..|ms| - 1], g);
      assert ms == ms[..|ms| - 1] + [ms[|ms| - 1]];
    }
  }

  lemma ReceivedOne(items: seq<Item>, i: Item)
    ensures Received(items + [i]) == Received(items) + if i.Sent? then [i.m] else []
  {
    assert (items + [i])[..|items|] == items;
  }

  /** One more item on a connection that is still open, or a bye at its end. */
  lemma ShapeGrows(items: seq<Item>, i: Item)
    requires WellShaped(items) && items != [] && !i.Hello? && (i.DirectIdle? ==> |items| == 1)
    requires StillOpen(items) || (i.Bye? && NoBye(items))
    ensures WellShaped(items + [i])
  {
  }

  lemma HeadOfRing(ring: seq<Message>, g: nat)
    requires ring != []
    ensures For(ring, g) == (if ring[0].gen == g then [ring[0]] else []) + For(ring[1..], g)
  {
    assert ring == [ring[0]] + ring[1..];
    ForAppends([ring[0]], ring[1..], g);
    ForOne(ring[0], g);
  }

  lemma ReceiveKeepsConnection(q: seq<Message>, items: seq<Item>, m: Message, rest: seq<Message>, ok: bool)
    requires ConnectionOk(q, items, [m] + rest, Looping, true)
    ensures if ok then ConnectionOk(q, items + [Sent(m)], rest, Looping, true)
            else ConnectionOk(q, items + [Cut], rest, Broken, true)
  {
    hide WellShaped, Received;
    var i := if ok then Sent(m) else Cut;
    ReceivedOne(items, i);
    ShapeGrows(items, i);
    assert Received(items) + ([m] + rest) == Received(items) + [m] + rest;
  }

  lemma ReceiveKeepsWire(s: Sys, ok: bool, g: nat)
    requires GlobalInv(s) && WireInv(s, g) && Enabled(s, Receive(ok))
    ensures WireInv(Do(s, Receive(ok)), g)
  {
    hide ConnectionOk, WellShaped, Received, For;
    HeadOfRing(s.ring, g);
    var rest := For(s.ring[1..], g);
    assert [] + rest == rest;
    if g == s.live && s.ring[0].gen == g {
      ReceiveKeepsConnection(At(s.past.queued, g), At(s.past.wire, g), s.ring[0], rest, ok);
    } else if g != s.live && 1 <= g <= s.counter {
      OtherConnections(At(s.past.queued, g), At(s.past.wire, g), For(s.ring, g), s.spc, rest, Do(s, Receive(ok)).spc);
    }
  }

  /** What the stream task does next is nothing to a connection that is over. */
  lemma OtherConnections(q: seq<Message>, items: seq<Item>, ring: seq<Message>, spc: StreamPc,
                         ring': seq<Message>, spc': StreamPc)
    requires ConnectionOk(q, items, ring, spc, false)
    ensures ConnectionOk(q, items, ring', spc', false)
  {
  }

  lemma AdoptKeepsWire(s: Sys, helloOut: bool, g: nat)
    requires GlobalInv(s) && WireInv(s, g) && QueueInv(s.w, s.past, g) && Enabled(s, Adopt(helloOut))
    ensures WireInv(Do(s, Adopt(helloOut)), g)
  {
    hide ConnectionOk, For, Received, WellShaped, ClientOk;
    var t := Do(s, Adopt(helloOut));
    if helloOut && g == Bump(s.counter) {
      NothingFor(s.ring, g);
      assert At(t.past.wire, g) == [Hello] && At(t.past.queued, g) == [];
      FirstItem();
    } else if 1 <= g <= s.counter {
      var q, items, ring := At(s.past.queued, g), At(s.past.wire, g), For(s.ring, g);
      OtherConnections(q, items, ring, s.spc, ring, t.spc);
    }
  }

  lemma FirstItem()
    ensures ConnectionOk([], [Hello], [], Greeting, true)
  {
    ReceivedOne([], Hello);
  }

  lemma TalkKeepsConnection(q: seq<Message>, items: seq<Item>, ring: seq<Message>, spc: StreamPc, i: Item)
    requires ConnectionOk(q, items, ring, spc, true) && (i.Ping? || i.Cut? || i.DirectIdle? || i.Bye?)
    requires (i.DirectIdle? ==> spc.Greeting?) && (!i.Bye? ==> !spc.Broken?)
    ensures var items' := items + [i];
      && (i.Cut? ==> ConnectionOk(q, items', ring, Broken, true))
      && (i.Bye? ==> ConnectionOk(q, items', ring, Looping, false))
      && (i.Ping? || i.DirectIdle? ==> ConnectionOk(q, items', ring, Looping, true))
  {
    hide WellShaped, Received;
    ReceivedOne(items, i);
    ShapeGrows(items, i);
    assert Received(items) + [] == Received(items);
  }

  lemma TalkKeepsWire(s: Sys, a: Action, g: nat)
    requires GlobalInv(s) && WireInv(s, g) && Enabled(s, a) && (a.Greet? || a.SendPing? || a.Drop?)
    ensures WireInv(Do(s, a), g)
  {
    hide WellShaped, Received, For;
    var q, items, ring := At(s.past.queued, g), At(s.past.wire, g), For(s.ring, g);
    if g == s.live {
      hide ConnectionOk;
      match a
      case Greet(running, ok) =>
        if running { GreetingIsLooping(q, items, ring); }
        else { TalkKeepsConnection(q, items, ring, s.spc, if ok then DirectIdle else Cut); }
      case SendPing(ok) => TalkKeepsConnection(q, items, ring, s.spc, if ok then Ping else Cut);
      case Drop(replaced) =>
        if replaced { TalkKeepsConnection(q, items, ring, s.spc, Bye); }
        else { HungUp(q, items, ring, s.spc); }
    }
  }

  lemma GreetingIsLooping(q: seq<Message>, items: seq<Item>, ring: seq<Message>)
    requires ConnectionOk(q, items, ring, Greeting, true)
    ensures ConnectionOk(q, items, ring, Looping, true)
  {
  }

  lemma HungUp(q: seq<Message>, items: seq<Item>, ring: seq<Message>, spc: StreamPc)
    requires ConnectionOk(q, items, ring, spc, true)
    ensures ConnectionOk(q, items, ring, Looping, false)
  {
  }

  lemma StepKeepsWire(s: Sys, a: Action, g: nat)
    requires GlobalInv(s) && WireInv(s, g) && QueueInv(s.w, s.past, g) && Enabled(s, a)
    ensures WireInv(Do(s, a), g)
  {
    match a
    case HookStart(ev) => HookStartKeepsWire(s, ev, g);
    case HookSync(fits) => HookSyncKeepsWire(s, fits, g);
    case HookRow(fits) => HookRowKeepsWire(s, fits, g);
    case Adopt(helloOut) => AdoptKeepsWire(s, helloOut, g);
    case Receive(ok) => ReceiveKeepsWire(s, ok, g);
    case _ => TalkKeepsWire(s, a, g);
  }

  lemma HookStartKeepsWire(s: Sys, ev: Event, g: nat)
    requires WireInv(s, g) && Enabled(s, HookStart(ev))
    ensures WireInv(Do(s, HookStart(ev)), g)
  {
    hide ConnectionOk;
  }

  lemma HookSyncKeepsWire(s: Sys, fits: bool, g: nat)
    requires GlobalInv(s) && WireInv(s, g) && Enabled(s, HookSync(fits))
    ensures WireInv(Do(s, HookSync(fits)), g)
  {
    EnqueueKeepsWire(s, s.wpc.gen, TrySync(s.w, s.wpc.gen, fits).1, g);
    hide ConnectionOk, Put, For;
  }

  lemma HookRowKeepsWire(s: Sys, fits: bool, g: nat)
    requires GlobalInv(s) && WireInv(s, g) && Enabled(s, HookRow(fits))
    ensures WireInv(Do(s, HookRow(fits)), g)
  {
    EnqueueKeepsWire(s, s.wpc.gen, TryRow(s.w, s.wpc.gen, s.wpc.ev, fits).1, g);
    hide ConnectionOk, Put, For;
  }

  ghost predicate Inv(s: Sys) {
    GlobalInv(s) && forall g: nat :: QueueInv(s.w, s.past, g) && WireInv(s, g)
  }

  lemma {:induction false} RunKeepsInv(run: seq<Action>)
    requires After(run).Reached?
    ensures Inv(After(run).s)
  {
    if run == [] {
      forall g: nat ensures QueueInv(BOOT.w, BOOT.past, g) && WireInv(BOOT, g) {}
    } else {
      var s, a := After(run[..|run| - 1]).s, run[|run| - 1];
      RunKeepsInv(run[..|run| - 1]);
      StepKeepsGlobal(s, a);
      forall g: nat ensures QueueInv(Do(s, a).w, Do(s, a).past, g) && WireInv(Do(s, a), g) {
        StepKeepsQueue(s, a, g);
        StepKeepsWire(s, a, g);
      }
    }
  }

  // ---- The trips of a run ----------------------------------------------------------------

  /** The trips that the open events of a run announce, in order, each with its number. */
  function Opened(run: seq<Action>): seq<Trip> {
    if run == [] then []
    else
      var ts, a := Opened(run[..|run| - 1]), run[|run| - 1];
      if a.HookStart? && a.ev.Open? then ts + [Announced(|ts|, a.ev)] else ts
  }

  function Announced(n: nat, ev: Event): Trip
    requires ev.Open?
  {
    Trip(n, FileName(ev.path), ev.cols, if |ev.hdr| <= HDR_MAX then ev.hdr else [])
  }

  /** The trip that the latest open or close event of a run leaves open. */
  function OpenTrip(run: seq<Action>): Option<Trip> {
    if run == [] then None
    else
      var front, a := run[..|run| - 1], run[|run| - 1];
      if a.HookStart? && a.ev.Open? then Some(Announced(|Opened(front)|, a.ev))
      else if a.HookStart? && a.ev.Closed? then None
      else OpenTrip(front)
  }

  /** The row events of a run that client `g` is served, each with the trip open at that event. */
  function RowEvents(run: seq<Action>, g: nat): seq<RowEvent>
    requires After(run).Reached?
  {
    if run == [] then []
    else
      var front, a := run[..|run| - 1], run[|run| - 1];
      var pc := After(front).s.wpc;
      RowEvents(front, g) +
        if a.HookRow? && pc.gen == g && pc.ev.RowLine? && pc.ev.line != []
        then [RowEvent(Emitted(pc.ev.line, OpenTrip(front)), MustLose(After(front).s.w, pc.ev.line, a.fits))] else []
  }

  /** The trip is the one that its number says was opened. */
  predicate IsOpened(t: Trip, ts: seq<Trip>) { t.n < |ts| && ts[t.n] == t }

  predicate NamesOpened(ms: seq<Message>, ts: seq<Trip>) {
    forall i | 0 <= i < |ms| :: ms[i].payload.Session? ==> IsOpened(ms[i].payload.t, ts)
  }

  /** What the writer knows of the trips, and what it has told client `g`. */
  predicate TripInv(w: Writer, q: seq<Message>, ts: seq<Trip>, open: Option<Trip>) {
    && w.trips == |ts| && w.trip == open && (open.Some? ==> IsOpened(open.value, ts))
    && NamesOpened(q, ts)
    && forall n | 0 <= n < |ts| :: ts[n].n == n
  }

  lemma HookStartKeepsTrips(s: Sys, ev: Event, q: seq<Message>, ts: seq<Trip>, open: Option<Trip>)
    requires Enabled(s, HookStart(ev)) && TripInv(s.w, q, ts, open)
    ensures TripInv(Do(s, HookStart(ev)).w, q, if ev.Open? then ts + [Announced(|ts|, ev)] else ts,
                    match ev case Open(_, _, _) => Some(Announced(|ts|, ev)) case Closed => None case _ => open)
  {
  }

  lemma StepKeepsTrips(s: Sys, a: Action, g: nat, ts: seq<Trip>, open: Option<Trip>)
    requires Enabled(s, a) && !a.HookStart? && TripInv(s.w, At(s.past.queued, g), ts, open)
    ensures TripInv(Do(s, a).w, At(Do(s, a).past.queued, g), ts, open)
  {
    if a.HookSync? {
      PutIs(s.w, s.wpc.gen, SyncPayload(s.w), a.fits);
    } else if a.HookRow? && s.wpc.ev.RowLine? {
      PutIs(s.w, s.wpc.gen, Row(s.wpc.ev.line), a.fits);
    }
    hide Put, IsOpened;
  }

  /**
   * In every run the writer's open trip is the one that the events of the run opened last, and every
   * session line queued for any client carries file, columns and header of the very open event that its
   * number counts.
   */
  lemma {:induction false} SessionsNameOpenedTrips(run: seq<Action>, g: nat)
    requires After(run).Reached?
    ensures var s := After(run).s; TripInv(s.w, At(s.past.queued, g), Opened(run), OpenTrip(run))
  {
    hide Do, Enabled, TripInv;
    if run == [] {
      NoTripsAtBoot(g);
    } else {
      var front, a := run[..|run| - 1], run[|run| - 1];
      var s := After(front).s;
      SessionsNameOpenedTrips(front, g);
      if a.HookStart? {
        HookStartKeepsTrips(s, a.ev, At(s.past.queued, g), Opened(front), OpenTrip(front));
        HookStartQueuesNothing(s, a.ev);
      } else {
        StepKeepsTrips(s, a, g, Opened(front), OpenTrip(front));
      }
    }
  }

  lemma NoTripsAtBoot(g: nat)
    ensures TripInv(BOOT.w, At(BOOT.past.queued, g), [], None)
  {
  }

  lemma HookStartQueuesNothing(s: Sys, ev: Event)
    requires Enabled(s, HookStart(ev))
    ensures Do(s, HookStart(ev)).past.queued == s.past.queued && Do(s, HookStart(ev)).past.rows == s.past.rows
  {
  }

  predicate RowsNameOpened(rows: seq<RowEvent>, ts: seq<Trip>) {
    forall i | 0 <= i < |rows| :: rows[i].row.trip.Some? && IsOpened(rows[i].row.trip.value, ts)
  }

  lemma RowHistoryGrows(s: Sys, a: Action, g: nat)
    requires Enabled(s, a)
    ensures At(Do(s, a).past.rows, g) == At(s.past.rows, g) +
      if a.HookRow? && s.wpc.gen == g && s.wpc.ev.RowLine? && s.wpc.ev.line != []
      then [RowEvent(Emitted(s.wpc.ev.line, s.w.trip), MustLose(s.w, s.wpc.ev.line, a.fits))] else []
  {
  }

  lemma {:induction false} OpenedOnlyGrows(run: seq<Action>, n: nat)
    requires n <= |run|
    ensures Opened(run[..n]) <= Opened(run)
  {
    if n == |run| {
      assert run[..n] == run;
    } else {
      OpenedOnlyGrows(run[..|run| - 1], n);
      assert run[..|run| - 1][..n] == run[..n];
    }
  }

  /** The row history is the row events of the run, and each names a trip that was opened. */
  lemma {:induction false} HistoryIsTheRowEvents(run: seq<Action>, g: nat)
    requires After(run).Reached?
    ensures At(After(run).s.past.rows, g) == RowEvents(run, g) && RowsNameOpened(RowEvents(run, g), Opened(run))
  {
    hide Do, Enabled, IsOpened;
    if run != [] {
      var front, a := run[..|run| - 1], run[|run| - 1];
      var s := After(front).s;
      HistoryIsTheRowEvents(front, g);
      SessionsNameOpenedTrips(front, g);
      OpenedOnlyGrows(run, |front|);
      RunKeepsInv(front);
      RowHistoryGrows(s, a, g);
      RowsStayNamed(RowEvents(front, g), Opened(front), Opened(run));
      if a.HookRow? {
        RowingIsOpen(s, a);
      }
      if a.HookRow? && s.wpc.ev.RowLine? {
        RowsStayNamed([RowEvent(Emitted(s.wpc.ev.line, s.w.trip), MustLose(s.w, s.wpc.ev.line, a.fits))],
                      Opened(front), Opened(run));
      }
    }
  }

  lemma RowsStayNamed(rows: seq<RowEvent>, ts: seq<Trip>, more: seq<Trip>)
    requires RowsNameOpened(rows, ts) && ts <= more
    ensures RowsNameOpened(rows, more)
  {
  }

  lemma RowingIsOpen(s: Sys, a: Action)
    requires Inv(s) && Enabled(s, a) && a.HookRow?
    ensures s.wpc.Rowing? && (s.wpc.ev.RowLine? ==> s.w.trip.Some?)
  {
  }

  // ---- Main results ----------------------------------------------------------------------

  /**
   * For the client being served, under every interleaving: the messages queued for it, with each
   * drop count read as that many gaps and the drops still pending added at the end, are exactly the
   * row events since that client was first served, each in its place and under the session line of
   * the trip that was open at it.
   */
  lemma QueuedAccountsForEveryRow(run: seq<Action>)
    requires After(run).Reached? && After(run).s.w.served != 0
    ensures var s := After(run).s;
      Accounts(Expand(At(s.past.queued, s.w.served)) + Gaps(s.w.drops), RowEvents(run, s.w.served))
  {
    RunKeepsInv(run);
    var s := After(run).s;
    assert QueueInv(s.w, s.past, s.w.served);
    HistoryIsTheRowEvents(run, s.w.served);
  }

  /**
   * What any client ever received: hello, perhaps a direct idle line, then messages queued for it,
   * all tagged with its own generation, in order and without omission, with whole pings between
   * them, perhaps a cut-off end and a bye. What is still in the ring is the rest of its queue.
   */
  lemma WireCarriesTheQueue(run: seq<Action>, g: nat)
    requires After(run).Reached? && 1 <= g <= After(run).s.counter
    ensures var s := After(run).s;
      var items := At(s.past.wire, g);
      && WellShaped(items) && Owned(Received(items), g)
      && Received(items) <= At(s.past.queued, g)
      && (g == s.live && !s.spc.Broken? ==> At(s.past.queued, g) == Received(items) + For(s.ring, g))
  {
    RunKeepsInv(run);
    var s := After(run).s;
    assert QueueInv(s.w, s.past, g) && WireInv(s, g);
  }

  lemma {:induction false} PrefixesExpand(ms: seq<Message>, n: nat)
    requires n <= |ms|
    ensures Expand(ms[..n]) <= Expand(ms)
  {
    if n == |ms| {
      assert ms[..n] == ms;
    } else {
      PrefixesExpand(ms[..|ms| - 1], n);
      assert ms[..|ms| - 1][..n] == ms[..n];
    }
  }

  /**
   * End to end: what reached a client, read with its session lines and drop counts, is a true prefix
   * of the row events it was served, every missing row marked in its place. The i-th row it got stands
   * under the session line that carries file, columns and header of exactly the trip that was open at
   * the i-th row event, and that trip is the one which its number counts among the open events.
   */
  lemma ClientReadsTrueRows(run: seq<Action>, g: nat)
    requires After(run).Reached? && 1 <= g <= After(run).s.counter
    ensures AccountsForPrefix(Expand(Received(At(After(run).s.past.wire, g))), RowEvents(run, g))
    ensures RowsNameOpened(RowEvents(run, g), Opened(run))
  {
    WireCarriesTheQueue(run, g);
    RunKeepsInv(run);
    HistoryIsTheRowEvents(run, g);
    var s := After(run).s;
    var q, rows := At(s.past.queued, g), At(s.past.rows, g);
    var got := Received(At(s.past.wire, g));
    assert QueueInv(s.w, s.past, g);
    if g == s.w.served {
      AccountsThenPrefix(Expand(q), s.w.drops, rows);
    }
    assert got == q[..|got|];
    PrefixesExpand(q, |got|);
  }

  // ---- When nothing is lost ----------------------------------------------------------------

  /** Every send finds room, a row is no longer than a message may be, and a column count is a C int. */
  predicate Roomy(a: Action) {
    match a
    case HookSync(fits) => fits
    case HookRow(fits) => fits
    case HookStart(Open(_, cols, _)) => -0x8000_0000 <= cols < 0x8000_0000
    case HookStart(RowLine(line)) => |line| <= 8448
    case _ => true
  }

  predicate AllRoomy(run: seq<Action>) { forall i | 0 <= i < |run| :: Roomy(run[i]) }

  predicate NothingPends(s: Sys) {
    && s.w.drops == 0
    && (s.wpc.Rowing? ==> !s.w.syncPending)
    && (s.w.trip.Some? ==> TripOk(s.w.trip.value))
    && (!s.wpc.Resting? && s.wpc.ev.RowLine? ==> |s.wpc.ev.line| <= 8448)
  }

  lemma RoomySyncIsSent(w: Writer, gen: u32)
    requires w.drops == 0 && (w.trip.Some? ==> TripOk(w.trip.value))
    ensures !TrySync(w, gen, true).0.syncPending && TrySync(w, gen, true).0.drops == 0
  {
    if w.trip.Some? {
      SyncAlwaysFits(w.trip.value, 0);
      assert Text(Message(gen, 0, Session(w.trip.value))) == Text(Message(1, 0, Session(w.trip.value)));
    }
    hide SessionLine;
  }

  lemma RoomyStep(s: Sys, a: Action)
    requires NothingPends(s) && Enabled(s, a) && Roomy(a)
    ensures NothingPends(Do(s, a))
    ensures a.HookRow? && s.wpc.ev.RowLine? ==> !MustLose(s.w, s.wpc.ev.line, a.fits)
  {
    if a.HookSync? {
      RoomySyncIsSent(s.w, s.wpc.gen);
    } else if a.HookRow? && s.wpc.ev.RowLine? && s.wpc.ev.line != [] {
      RowIsLostExactlyThen(s.w, s.wpc.gen, s.wpc.ev.line, true);
    }
    hide Put;
  }

  lemma {:induction false} RoomyRun(run: seq<Action>, g: nat)
    requires After(run).Reached? && AllRoomy(run)
    ensures NothingPends(After(run).s)
    ensures forall i | 0 <= i < |RowEvents(run, g)| :: !RowEvents(run, g)[i].lost
  {
    if run != [] {
      hide Do, Enabled, NothingPends, MustLose, Roomy;
      RoomyRun(run[..|run| - 1], g);
      RoomyStep(After(run[..|run| - 1]).s, run[|run| - 1]);
    } else {
      assert NothingPends(BOOT);
    }
  }

  function Delivered(rows: seq<RowEvent>): seq<Option<Emitted>> {
    seq(|rows|, i requires 0 <= i < |rows| => Some(rows[i].row))
  }

  /**
   * Where every send finds room, no row is lost: the queue of the client being served reads as exactly
   * its row events, and so does what a live connection has received once the ring holds nothing for it.
   */
  lemma FittingRunsLoseNothing(run: seq<Action>)
    requires After(run).Reached? && AllRoomy(run) && After(run).s.w.served != 0
    ensures var s := After(run).s;
      var g := s.w.served;
      && s.w.drops == 0
      && Expand(At(s.past.queued, g)) == Delivered(RowEvents(run, g))
      && (g == s.live && !s.spc.Broken? && For(s.ring, g) == []
          ==> Expand(Received(At(s.past.wire, g))) == Delivered(RowEvents(run, g)))
  {
    var s := After(run).s;
    var g := s.w.served;
    var q := At(s.past.queued, g);
    RoomyRun(run, g);
    QueuedAccountsForEveryRow(run);
    assert Expand(q) + Gaps(0) == Expand(q);
    RunKeepsInv(run);
    if g == s.live && !s.spc.Broken? && For(s.ring, g) == [] {
      WireCarriesTheQueue(run, g);
      assert Received(At(s.past.wire, g)) + [] == Received(At(s.past.wire, g));
    }
  }

  // ---- State lines -------------------------------------------------------------------------

  /** A client hears first of the state: that none is open is "idle" then, and "close" ever after. */
  predicate StateFirst(q: seq<Message>) {
    forall i | 0 <= i < |q| ::
      (q[i].payload.Idle? ==> i == 0) && (q[i].payload.Close? ==> i != 0) && (q[i].payload.Row? ==> i != 0)
  }

  function StateLines(q: seq<Message>): nat {
    if q == [] then 0 else StateLines(q[..|q| - 1]) + if q[|q| - 1].payload.Row? then 0 else 1
  }

  /** The trips that were opened or closed while client `g` was live. */
  function StateEvents(run: seq<Action>, g: nat): nat
    requires After(run).Reached?
  {
    if run == [] then 0
    else
      var front, a := run[..|run| - 1], run[|run| - 1];
      StateEvents(front, g) +
        if a.HookStart? && (a.ev.Open? || a.ev.Closed?) && After(front).s.live == g then 1 else 0
  }

  predicate ShapeInv(w: Writer, q: seq<Message>, last: nat, g: nat, events: nat) {
    && StateFirst(q)
    && StateLines(q) + (if g == w.served && w.syncPending then 1 else 0) <= events + (if g > last then 0 else 1)
    && (g == w.served ==> (w.syncFresh <==> q == []) && (w.syncFresh ==> w.syncPending))
  }

  lemma StateLinesOne(q: seq<Message>, m: Message)
    ensures StateLines(q + [m]) == StateLines(q) + if m.payload.Row? then 0 else 1
  {
    assert (q + [m])[..|q|] == q;
  }

  lemma SyncKeepsShape(w: Writer, gen: u32, fits: bool, q: seq<Message>, last: nat, events: nat)
    requires gen == w.served && ShapeInv(w, q, last, gen, events)
    ensures var (w', ms) := TrySync(w, gen, fits); ShapeInv(w', q + ms, last, gen, events)
  {
    var (w', ms) := TrySync(w, gen, fits);
    PutIs(w, gen, SyncPayload(w), fits);
    hide Put;
    if ms == [] {
      assert q + ms == q;
    } else {
      StateLinesOne(q, ms[0]);
    }
  }

  lemma RowKeepsShape(w: Writer, gen: u32, ev: Event, fits: bool, q: seq<Message>, last: nat, events: nat)
    requires gen == w.served && ShapeInv(w, q, last, gen, events)
    ensures var (w', ms) := TryRow(w, gen, ev, fits); ShapeInv(w', q + ms, last, gen, events)
  {
    var (w', ms) := TryRow(w, gen, ev, fits);
    if ev.RowLine? { PutIs(w, gen, Row(ev.line), fits); }
    hide Put;
    if ms == [] {
      assert q + ms == q;
    } else {
      StateLinesOne(q, ms[0]);
    }
  }

  lemma SendsServeTheSame(w: Writer, gen: u32, ev: Event, fits: bool)
    ensures TrySync(w, gen, fits).0.served == w.served && TryRow(w, gen, ev, fits).0.served == w.served
  {
  }

  lemma StartKeepsShape(s: Sys, ev: Event, g: nat, events: nat)
    requires GlobalInv(s) && QueueInv(s.w, s.past, g) && Enabled(s, HookStart(ev)) && g != 0
    requires ShapeInv(s.w, At(s.past.queued, g), s.past.last, g, events)
    ensures var t := Do(s, HookStart(ev));
      ShapeInv(t.w, At(t.past.queued, g), t.past.last, g,
               events + if (ev.Open? || ev.Closed?) && s.live == g then 1 else 0)
  {
    hide ClientOk, FileName, StateFirst;
    assert StateFirst(At(s.past.queued, g));
  }

  lemma StepKeepsShape(s: Sys, a: Action, g: nat, events: nat)
    requires GlobalInv(s) && QueueInv(s.w, s.past, g) && Enabled(s, a) && g != 0
    requires ShapeInv(s.w, At(s.past.queued, g), s.past.last, g, events)
    ensures var t := Do(s, a);
      ShapeInv(t.w, At(t.past.queued, g), t.past.last, g,
               events + if a.HookStart? && (a.ev.Open? || a.ev.Closed?) && s.live == g then 1 else 0)
  {
    hide ClientOk, Put, TrySync, TryRow, Serve, Note, StateFirst;
    var q := At(s.past.queued, g);
    if a.HookSync? || a.HookRow? {
      SendsServeTheSame(s.w, s.wpc.gen, s.wpc.ev, a.fits);
    }
    assert q + [] == q;
    match a
    case HookStart(ev) => StartKeepsShape(s, ev, g, events);
    case HookSync(fits) =>
      if g == s.wpc.gen { SyncKeepsShape(s.w, g, fits, q, s.past.last, events); }
    case HookRow(fits) =>
      if g == s.wpc.gen { RowKeepsShape(s.w, g, s.wpc.ev, fits, q, s.past.last, events); }
    case _ =>
  }

  /**
   * In every run: the queue of a client begins with a state line; an idle line can only be that first
   * one and a close line never is; and after it there is at most one state line for each trip opened or
   * closed while the client was live.
   */
  lemma {:induction false} StateLinesTellChanges(run: seq<Action>, g: nat)
    requires After(run).Reached? && g != 0
    ensures var q := At(After(run).s.past.queued, g);
      StateFirst(q) && StateLines(q) <= 1 + StateEvents(run, g)
    ensures var s := After(run).s; ShapeInv(s.w, At(s.past.queued, g), s.past.last, g, StateEvents(run, g))
  {
    if run != [] {
      hide Do, Enabled, StateFirst;
      var front := run[..|run| - 1];
      StateLinesTellChanges(front, g);
      RunKeepsInv(front);
      assert QueueInv(After(front).s.w, After(front).s.past, g);
      StepKeepsShape(After(front).s, run[|run| - 1], g, StateEvents(front, g));
    }
  }

  // ---- A whole conversation ----------------------------------------------------------------

  function Texts(ms: seq<Message>): seq<string> {
    if ms == [] then [] else Texts(ms[..|ms| - 1]) + [Text(ms[|ms| - 1])]
  }

  /** A run leads along the states that its actions pass through. */
  lemma {:induction false} RunTraces(run: seq<Action>, states: seq<Sys>)
    requires |states| == |run| + 1 && states[0] == BOOT
    requires forall i | 0 <= i < |run| :: Enabled(states[i], run[i]) && Do(states[i], run[i]) == states[i + 1]
    ensures After(run) == Reached(states[|run|])
  {
    if run != [] {
      RunTraces(run[..|run| - 1], states[..|run|]);
    }
  }

  /** Client 1 is being served: what the writer knows, what was queued, what is in the ring, what went out. */
  function Serving(w: Writer, queued: seq<Message>, rows: map<nat, seq<RowEvent>>, ring: seq<Message>,
                   wire: seq<Item>): Sys {
    Sys(w, Resting, ring, 1, 1, Looping, Past(1, rows, map[1 := queued], map[1 := wire]))
  }

  /** The first hook that finds a new client queues the session line of the trip it opens. */
  lemma OpenIsQueued(open: Event, trip: Trip) returns (states: seq<Sys>)
    requires open.Open? && TripOk(trip) && trip == Announced(0, open)
    ensures var run := [Adopt(true), Greet(true, true), HookStart(open), HookSync(true), HookRow(true)];
      var m := Message(1, 0, Session(trip));
      && |states| == 6 && states[0] == BOOT
      && (forall i | 0 <= i < 5 :: Enabled(states[i], run[i]) && Do(states[i], run[i]) == states[i + 1])
      && states[5] == Serving(Writer(Some(trip), 1, 1, false, false, 0, 0), [m], map[], [m], [Hello])
  {
    var s1 := Do(BOOT, Adopt(true));
    var s2 := Do(s1, Greet(true, true));
    var s3 := Do(s2, HookStart(open));
    var s4 := Do(s3, HookSync(true));
    SyncAlwaysFits(trip, 0);
    var m := Message(1, 0, Session(trip));
    assert s4.ring == [m] && s4.wpc == Rowing(open, 1);
    var s5 := Do(s4, HookRow(true));
    assert s5.ring == [m] && s5.w == Writer(Some(trip), 1, 1, false, false, 0, 0);
    assert [] + [Hello] == [Hello];
    assert s5.past.wire == map[1 := [Hello]];
    assert At(s5.past.queued, 1) == [m];
    assert s5.past.queued == map[1 := [m]];
    states := [BOOT, s1, s2, s3, s4, s5];
  }

  /** The next hook queues the row, and the stream task sends both messages. */
  lemma RowIsSent(w: Writer, m: Message, line: string) returns (states: seq<Sys>)
    requires w.trip.Some? && w.served == 1 && !w.syncPending && w.drops == 0 && m.gen == 1
    requires 0 < |line| <= 8448
    ensures var run := [HookStart(RowLine(line)), HookSync(true), HookRow(true), Receive(true), Receive(true)];
      && |states| == 6 && states[0] == Serving(w, [m], map[], [m], [Hello])
      && (forall i | 0 <= i < 5 :: Enabled(states[i], run[i]) && Do(states[i], run[i]) == states[i + 1])
      && At(states[5].past.wire, 1) == [Hello, Sent(m), Sent(Message(1, 0, Row(line)))]
  {
    var s0 := Serving(w, [m], map[], [m], [Hello]);
    var s1 := Do(s0, HookStart(RowLine(line)));
    var s2 := Do(s1, HookSync(true));
    RowIsLostExactlyThen(s2.w, 1, line, true);
    var s3 := Do(s2, HookRow(true));
    var s4 := Do(s3, Receive(true));
    states := [s0, s1, s2, s3, s4, Do(s4, Receive(true))];
  }

  /** What three items with two messages among them say. */
  lemma TwoTexts(a: Message, b: Message)
    ensures Texts(Received([Hello, Sent(a), Sent(b)])) == [Text(a), Text(b)]
  {
    ReceivedOne([], Hello);
    ReceivedOne([Hello], Sent(a));
    ReceivedOne([Hello] + [Sent(a)], Sent(b));
    assert [Hello, Sent(a), Sent(b)] == [Hello] + [Sent(a)] + [Sent(b)];
    assert Received([]) == [] && [] + [a] + [b] == [a, b];
    assert [a, b][..1] == [a] && [a][..0] == [];
    assert Texts([a]) == [] + [Text(a)];
  }

  /**
   * A client connects, a trip is opened, a row is written, and the stream task takes two messages from
   * the ring: the client then has the session line with the header, and the row.
   */
  lemma OneRowArrives(dir: string, name: string, cols: nat, hdr: string, line: string)
    requires '/' !in name && |name| <= 63 && cols < 0x8000_0000 && 0 < |hdr| <= 8192 && 0 < |line| <= 8448
    ensures var o := After([Adopt(true), Greet(true, true),
        HookStart(Open(dir + "/" + name, cols, hdr)), HookSync(true), HookRow(true),
        HookStart(RowLine(line)), HookSync(true), HookRow(true), Receive(true), Receive(true)]);
      && o.Reached?
      && Texts(Received(At(o.s.past.wire, 1))) ==
         ["#session file=" + name + " cols=" + Written(cols) + "\n" + hdr, line]
  {
    var open := Open(dir + "/" + name, cols, hdr);
    var trip := Trip(0, name, cols, hdr);
    NameAfterSlash(dir, name);
    var m, row := Message(1, 0, Session(trip)), Message(1, 0, Row(line));
    var head := [Adopt(true), Greet(true, true), HookStart(open), HookSync(true), HookRow(true)];
    var tail := [HookStart(RowLine(line)), HookSync(true), HookRow(true), Receive(true), Receive(true)];
    var s := OpenIsQueued(open, trip);
    var t := RowIsSent(s[5].w, m, line);
    hide Do, Enabled, Text, Texts, Received, At;
    RunTraces(head + tail, s + t[1..]);
    assert After(head + tail) == Reached(t[5]);
    assert head + tail == [Adopt(true), Greet(true, true), HookStart(open), HookSync(true), HookRow(true),
      HookStart(RowLine(line)), HookSync(true), HookRow(true), Receive(true), Receive(true)];
    TwoTexts(m, row);
    MessagesRead(1, 0, m.payload);
    MessagesRead(1, 0, row.payload);
    assert Text(row) == line;
    assert Text(m) == "#session file=" + name + " cols=" + Written(cols) + "\n" + hdr;
  }
}
