/**
 * The fast ROM read of main/ncflash_fastread.c: one UDS ReadMemoryByAddress per block, ISO-TP
 * reassembly of each answer (section 9.6 of ISO 15765-2:2016), retries, and one teardown.
 *
 * The bus, the ECU and the TCP queue are the environment: it decides which frames arrive before a
 * receive times out and which sends succeed.
 */
module FastRead {
  import opened Words

  const ECU_ID: u32 := 0x7E8
  const READ_BLOCK := 0x400
  const RESP_MAX := READ_BLOCK + 8
  const MAX_PENDING := 16
  const BLOCK_RETRIES := 4
  const RMBA: u8 := 0x23
  const RMBA_POS: u8 := 0x63
  const NRC: u8 := 0x7F
  const RESPONSE_PENDING: u8 := 0x78
  const PING_ADDR: u32 := 0xFFFF_FFFE

  // ---- ISO-TP reassembly -----------------------------------------------------------------

  type Data = d: seq<u8> | |d| == 8 witness [0, 0, 0, 0, 0, 0, 0, 0]

  datatype Frame = Frame(id: u32, rtr: bool, data: Data)

  /** What can_receive delivers: a frame, or nothing more within the time allowed. */
  datatype Event = Got(f: Frame) | TimedOut

  predicate FromEcu(f: Frame) { f.id == ECU_ID && !f.rtr }

  /** The ECU's frames up to the first timeout; cross traffic does not count. */
  function Ours(rx: seq<Event>): seq<Data> {
    if rx == [] || rx[0].TimedOut? then []
    else (if FromEcu(rx[0].f) then [rx[0].f.data] else []) + Ours(rx[1..])
  }

  /** The stage numbers of the failure diagnostics. */
  datatype Response = Payload(p: seq<u8>) | Failed(stage: nat)

  function Pci(d: Data): u8 { d[0] / 16 }
  function Low(d: Data): u8 { d[0] % 16 }

  predicate IsPending(d: Data) {
    Pci(d) == 0 && 3 <= Low(d) <= 7 && d[1] == NRC && d[3] == RESPONSE_PENDING
  }

  /** A negative answer of three to seven bytes with the code 0x78. */
  lemma PendingAnswers(d: Data)
    ensures IsPending(d) <==> 3 <= d[0] <= 7 && d[1] == 0x7F && d[3] == 0x78
  {
  }

  /** The reader sees the data frames of id 0x7E8, and nothing that comes after a timeout. */
  lemma CrossTrafficIsSkipped(f: Frame, rx: seq<Event>)
    ensures Ours([]) == Ours([TimedOut] + rx) == []
    ensures Ours([Got(f)] + rx) == (if f.id == 0x7E8 && !f.rtr then [f.data] else []) + Ours(rx)
  {
    assert ([Got(f)] + rx)[1..] == rx;
  }

  /** Reassemble an answer from frames, `pending` response-pending codes having been seen. */
  function Reassemble(fs: seq<Data>, pending: nat, fcSent: bool): Response {
    if fs == [] then Failed(1)
    else
      var d := fs[0];
      if Pci(d) == 0 then
        if Low(d) < 1 || Low(d) > 7 then Failed(3)
        else if IsPending(d) then
          if pending + 1 > MAX_PENDING then Failed(2) else Reassemble(fs[1..], pending + 1, fcSent)
        else Payload(d[1..1 + Low(d)])
      else if Pci(d) != 1 then Failed(3)
      else
        var total := Low(d) * 256 + d[1];
        if total < 8 || total > RESP_MAX then Failed(4)
        else if !fcSent then Failed(5)
        else Consecutive(fs[1..], d[2..], total, 1)
  }

  function Consecutive(fs: seq<Data>, got: seq<u8>, total: nat, expected: nat): Response
    requires |got| <= total
    decreases total - |got|
  {
    if |got| == total then Payload(got)
    else if fs == [] then Failed(6)
    else if Pci(fs[0]) != 2 then Failed(7)
    else if Low(fs[0]) != expected then Failed(8)
    else Consecutive(fs[1..], got + fs[0][1..1 + Take(total - |got|)], total, (expected + 1) % 16)
  }

  function Take(left: nat): nat { if left > 7 then 7 else left }

  // ---- The segmentation it must invert ---------------------------------------------------

  predicate SingleCarries(d: Data, p: seq<u8>) {
    1 <= |p| <= 7 && d[0] == |p| && d[1..1 + |p|] == p && !IsPending(d)
  }

  predicate FirstCarries(d: Data, p: seq<u8>) {
    8 <= |p| <= 0x408 && d[0] == 0x10 + |p| / 256 && d[1] == |p| % 256 && d[2..] == p[..6]
  }

  /** The k-th consecutive frame, counted from zero, is numbered k+1 mod 16 and carries its seven bytes. */
  predicate ConsecutiveCarries(d: Data, p: seq<u8>, k: nat) {
    6 + 7 * k < |p| && d[0] == 0x20 + (k + 1) % 16 &&
    var n := Take(|p| - (6 + 7 * k)); d[1..1 + n] == p[6 + 7 * k..6 + 7 * k + n]
  }

  /** Consecutive frames from the k-th on carry the rest of `p` and no more. */
  predicate RestCarries(fs: seq<Data>, p: seq<u8>, k: nat) {
    && (6 + 7 * (k + |fs|) >= |p|)
    && (|fs| > 0 ==> 6 + 7 * (k + |fs| - 1) < |p|)
    && forall j | 0 <= j < |fs| :: ConsecutiveCarries(fs[j], p, k + j)
  }

  predicate Segmented(fs: seq<Data>, p: seq<u8>) {
    |fs| >= 1 && (
      || (|fs| == 1 && SingleCarries(fs[0], p))
      || (FirstCarries(fs[0], p) && RestCarries(fs[1..], p, 0)))
  }

  /** At most `spare` response-pending codes, then the segmented payload, then anything. */
  ghost predicate Answers(fs: seq<Data>, p: seq<u8>, spare: int) {
    exists k, n | 0 <= k <= n <= |fs| ::
      k <= spare && (forall j | 0 <= j < k :: IsPending(fs[j])) && Segmented(fs[k..n], p)
  }

  lemma HeadCarries(fs: seq<Data>, p: seq<u8>, k: nat)
    requires 6 + 7 * k < |p| && RestCarries(fs, p, k)
    ensures fs != []
    ensures var n := Take(|p| - (6 + 7 * k));
      && Pci(fs[0]) == 2 && Low(fs[0]) == (k + 1) % 16
      && p[..6 + 7 * k] + fs[0][1..1 + n] == p[..6 + 7 * k + n]
  {
    assert ConsecutiveCarries(fs[0], p, k);
    var a, n := 6 + 7 * k, Take(|p| - (6 + 7 * k));
    assert p[..a] + p[a..a + n] == p[..a + n];
  }

  lemma TailCarries(fs: seq<Data>, p: seq<u8>, k: nat)
    requires 6 + 7 * (k + 1) < |p| + 7 && RestCarries(fs, p, k) && fs != []
    ensures RestCarries(fs[1..], p, k + 1)
  {
    hide ConsecutiveCarries;
    forall j | 0 <= j < |fs[1..]| ensures ConsecutiveCarries(fs[1..][j], p, k + 1 + j) {
      assert ConsecutiveCarries(fs[j + 1], p, k + (j + 1));
    }
  }

  lemma {:induction false} RestIsReassembled(fs: seq<Data>, p: seq<u8>, k: nat, more: seq<Data>)
    requires 6 + 7 * k <= |p| && RestCarries(fs, p, k)
    ensures Consecutive(fs + more, p[..6 + 7 * k], |p|, (k + 1) % 16) == Payload(p)
    decreases |p| - 7 * k
  {
    hide RestCarries, Consecutive, ConsecutiveCarries, Pci, Low;
    var a := 6 + 7 * k;
    if a == |p| {
      assert p[..a] == p;
      ConsecutiveEnds(fs + more, p, (k + 1) % 16);
    } else {
      HeadCarries(fs, p, k);
      var n := Take(|p| - a);
      AppendedHead(fs, more);
      ConsecutiveStep(fs + more, p[..a], |p|, (k + 1) % 16);
      NextNumber(k);
      if a + n < |p| {
        TailCarries(fs, p, k);
        RestIsReassembled(fs[1..], p, k + 1, more);
      } else {
        assert p[..a + n] == p;
        ConsecutiveEnds(fs[1..] + more, p, (k + 2) % 16);
      }
    }
  }

  lemma AppendedHead(fs: seq<Data>, more: seq<Data>)
    requires fs != []
    ensures (fs + more)[0] == fs[0] && (fs + more)[1..] == fs[1..] + more
  {
  }

  lemma NextNumber(k: nat)
    ensures ((k + 1) % 16 + 1) % 16 == (k + 2) % 16
  {
  }

  lemma ConsecutiveEnds(fs: seq<Data>, p: seq<u8>, expected: nat)
    ensures Consecutive(fs, p, |p|, expected) == Payload(p)
  {
  }

  lemma ConsecutiveStep(fs: seq<Data>, got: seq<u8>, total: nat, expected: nat)
    requires |got| < total && fs != [] && Pci(fs[0]) == 2 && Low(fs[0]) == expected
    ensures Consecutive(fs, got, total, expected)
         == Consecutive(fs[1..], got + fs[0][1..1 + Take(total - |got|)], total, (expected + 1) % 16)
  {
  }

  lemma ShiftedSlice(fs: seq<Data>, k: nat, n: nat)
    requires fs != [] && k <= n <= |fs| - 1
    ensures fs[1..][k..n] == fs[k + 1..n + 1]
  {
  }

  /** Completeness: an answer that carries `p`, whatever follows it, reassembles to `p`. */
  lemma {:induction false} AnswerIsReassembled(fs: seq<Data>, p: seq<u8>, k: nat, n: nat, pending: nat)
    requires k <= n <= |fs| && pending + k <= MAX_PENDING
    requires (forall j | 0 <= j < k :: IsPending(fs[j])) && Segmented(fs[k..n], p)
    ensures Reassemble(fs, pending, true) == Payload(p)
    decreases k
  {
    if k > 0 {
      assert IsPending(fs[0]);
      ShiftedSlice(fs, k - 1, n - 1);
      AnswerIsReassembled(fs[1..], p, k - 1, n - 1, pending + 1);
    } else {
      var gs := fs[..n];
      assert gs == fs[0..n] && gs[0] == fs[0];
      if FirstCarries(fs[0], p) && RestCarries(gs[1..], p, 0) {
        assert fs[1..] == gs[1..] + fs[n..];
        RestIsReassembled(gs[1..], p, 0, fs[n..]);
      } else {
        assert SingleCarries(fs[0], p);
      }
    }
  }

  lemma {:induction false} ReassembledRest(fs: seq<Data>, got: seq<u8>, p: seq<u8>, total: nat, k: nat) returns (n: nat)
    requires |got| == (if 6 + 7 * k <= total then 6 + 7 * k else total) && |got| <= total && 6 + 7 * (k - 1) < total
    requires Consecutive(fs, got, total, (k + 1) % 16) == Payload(p)
    ensures |p| == total && got == p[..|got|] && n <= |fs| && RestCarries(fs[..n], p, k)
    decreases total - |got|
  {
    hide RestCarries, Consecutive, ConsecutiveCarries, Pci, Low;
    if |got| == total {
      n := 0;
      ConsecutiveEnds(fs, got, (k + 1) % 16);
      NothingLeft(p, k);
    } else {
      ConsecutiveGoesOn(fs, got, p, total, (k + 1) % 16);
      NextNumber(k);
      var d, t := fs[0], Take(total - |got|);
      var got' := got + d[1..1 + t];
      var m := ReassembledRest(fs[1..], got', p, total, k + 1);
      n := m + 1;
      assert got == got'[..|got|] == p[..|got|];
      assert d[1..1 + t] == got'[|got|..] == p[|got|..|got| + t];
      assert fs[..n] == [d] + fs[1..][..m];
      IsConsecutive(d, p, k);
      OneMoreCarries(d, fs[1..][..m], p, k);
    }
  }

  lemma ConsecutiveGoesOn(fs: seq<Data>, got: seq<u8>, p: seq<u8>, total: nat, expected: nat)
    requires |got| < total && Consecutive(fs, got, total, expected) == Payload(p)
    ensures fs != [] && Pci(fs[0]) == 2 && Low(fs[0]) == expected
    ensures Consecutive(fs[1..], got + fs[0][1..1 + Take(total - |got|)], total, (expected + 1) % 16) == Payload(p)
  {
  }

  lemma IsConsecutive(d: Data, p: seq<u8>, k: nat)
    requires 6 + 7 * k < |p| && Pci(d) == 2 && Low(d) == (k + 1) % 16
    requires var n := Take(|p| - (6 + 7 * k)); d[1..1 + n] == p[6 + 7 * k..6 + 7 * k + n]
    ensures ConsecutiveCarries(d, p, k)
  {
  }

  lemma NothingLeft(p: seq<u8>, k: nat)
    requires 6 + 7 * k >= |p|
    ensures RestCarries([], p, k)
  {
  }

  lemma OneMoreCarries(d: Data, fs: seq<Data>, p: seq<u8>, k: nat)
    requires ConsecutiveCarries(d, p, k) && RestCarries(fs, p, k + 1)
    ensures RestCarries([d] + fs, p, k)
  {
    hide ConsecutiveCarries;
    forall j | 0 <= j < |[d] + fs| ensures ConsecutiveCarries(([d] + fs)[j], p, k + j) {
      if j > 0 { assert ConsecutiveCarries(fs[j - 1], p, k + 1 + (j - 1)); }
    }
    assert 6 + 7 * k < |p| by { StillLeft(d, p, k); }
  }

  lemma StillLeft(d: Data, p: seq<u8>, k: nat)
    requires ConsecutiveCarries(d, p, k)
    ensures 6 + 7 * k < |p|
  {
  }

  /** Soundness: whatever is returned was carried by the frames. */
  lemma {:induction false} ReassembledWasAnswered(fs: seq<Data>, p: seq<u8>, pending: nat) returns (k: nat, n: nat)
    requires pending <= MAX_PENDING && Reassemble(fs, pending, true) == Payload(p)
    ensures k <= n <= |fs| && pending + k <= MAX_PENDING
    ensures (forall j | 0 <= j < k :: IsPending(fs[j])) && Segmented(fs[k..n], p)
    decreases |fs|
  {
    var d := fs[0];
    if IsPending(d) {
      var k', n' := ReassembledWasAnswered(fs[1..], p, pending + 1);
      k, n := k' + 1, n' + 1;
      ShiftedSlice(fs, k', n');
      forall j | 0 <= j < k ensures IsPending(fs[j]) {
        if j > 0 { assert fs[j] == fs[1..][j - 1]; }
      }
    } else if Pci(d) == 0 {
      k, n := 0, 1;
    } else {
      var total := Low(d) * 256 + d[1];
      var m := ReassembledRest(fs[1..], d[2..], p, total, 0);
      k, n := 0, m + 1;
      assert fs[0..n][1..] == fs[1..][..m];
    }
  }

  /**
   * Reassembly is sound and complete. With every send accepted, the answer to a request is `p`
   * exactly when the ECU's frames, cross traffic set aside, are at most 16 response-pending codes
   * followed by a segmentation of `p`: one single frame, or a first frame and consecutive frames
   * numbered 1, 2, ... modulo 16. Padding and later frames do not matter.
   */
  lemma ReassemblyIsExact(rx: seq<Event>, p: seq<u8>)
    ensures Reassemble(Ours(rx), 0, true) == Payload(p) <==> Answers(Ours(rx), p, 16)
  {
    var fs := Ours(rx);
    if Reassemble(fs, 0, true) == Payload(p) {
      var k, n := ReassembledWasAnswered(fs, p, 0);
    }
    if Answers(fs, p, 16) {
      var k, n :| 0 <= k <= n <= |fs| && k <= MAX_PENDING &&
                  (forall j | 0 <= j < k :: IsPending(fs[j])) && Segmented(fs[k..n], p);
      AnswerIsReassembled(fs, p, k, n, 0);
    }
  }

  // ---- Requests and commands -------------------------------------------------------------

  /** ReadMemoryByAddress in a single frame. */
  function Request(addr: u32, size: nat): Data
    requires size < 0x1_0000
  {
    [7, RMBA, addr / 0x100_0000, addr / 0x1_0000 % 0x100, addr / 0x100 % 0x100, addr % 0x100,
     size / 0x100, size % 0x100]
  }

  /** The ECU reads back the address and the size that were meant. */
  lemma RequestNamesTheBlock(addr: u32, size: nat)
    requires size < 0x1_0000
    ensures var d := Request(addr, size);
      && d[1] == 0x23 && BigEndian(d[2..6]) == addr && BigEndian(d[6..]) == size && SingleCarries(d, d[1..])
  {
    var d := Request(addr, size);
    var a3, a2, a1 := addr / 0x100_0000, addr / 0x1_0000, addr / 0x100;
    assert a1 / 0x100 == a2 && a2 / 0x100 == a3;
    BigEndianAppends([d[2], d[3], d[4]], d[5]);
    BigEndianAppends([d[2], d[3]], d[4]);
    BigEndianAppends([d[2]], d[3]);
    BigEndianAppends([], d[2]);
    assert d[2..6] == [d[2], d[3], d[4]] + [d[5]];
    assert [d[2], d[3], d[4]] == [d[2], d[3]] + [d[4]] && [d[2], d[3]] == [d[2]] + [d[3]] && [d[2]] == [] + [d[2]];
    BigEndianAppends([d[6]], d[7]);
    BigEndianAppends([], d[6]);
    assert d[6..] == [d[6]] + [d[7]] && [d[6]] == [] + [d[6]];
  }

  function BigEndian(s: seq<u8>): nat { if s == [] then 0 else BigEndian(s[..|s| - 1]) * 0x100 + s[|s| - 1] }

  lemma BigEndianAppends(s: seq<u8>, b: u8)
    ensures BigEndian(s + [b]) == BigEndian(s) * 0x100 + b
  {
    assert (s + [b])[..|s|] == s;
  }

  function HexNibble(c: u8): (n: nat)
    ensures n <= 15 || n == 0xFF
  {
    if 48 <= c <= 57 then c - 48
    else if 97 <= c <= 102 then c - 87
    else if 65 <= c <= 70 then c - 55
    else 0xFF
  }

  function Hex(s: seq<u8>): Option<nat> {
    if s == [] then Some(0)
    else
      var v, n := Hex(s[..|s| - 1]), HexNibble(s[|s| - 1]);
      if v.None? || n == 0xFF then None else Some(v.value * 16 + n)
  }

  lemma NibbleIsTheDigit(c: u8, v: nat)
    requires v < 16
    ensures IsDigitOf(c, v) <==> HexNibble(c) == v
  {
  }

  lemma SpellsOnce(m: nat, v: nat, n: nat)
    requires v < 16
    ensures m == n / 16 && v == n % 16 <==> m * 16 + v == n
  {
  }

  /** What is read off hexadecimal digits is the number they spell, and nothing else is read. */
  lemma {:induction false} HexIsWhatIsSpelled(s: seq<u8>, n: nat)
    ensures Spells(s, n) <==> s != [] && Hex(s) == Some(n)
    decreases |s|
  {
    if s != [] {
      var front, c := s[..|s| - 1], s[|s| - 1];
      var v := HexNibble(c);
      NibbleIsTheDigit(c, n % 16);
      HexIsWhatIsSpelled(front, n / 16);
      assert front == [] ==> Hex(front) == Some(0);
      hide IsDigitOf, HexNibble;
      if v != 0xFF && Hex(front).Some? {
        SpellsOnce(Hex(front).value, v, n);
      }
    }
  }

  lemma NoDigits()
    ensures Hex([]) == Some(0)
  {
  }

  lemma HexAppends(s: seq<u8>, c: u8)
    ensures Hex(s + [c]) ==
      if Hex(s).None? || HexNibble(c) == 0xFF then None else Some(Hex(s).value * 16 + HexNibble(c))
  {
    assert (s + [c])[..|s|] == s;
  }

  function Pow16(k: nat): nat { if k == 0 then 1 else 16 * Pow16(k - 1) }

  /** A 32-bit accumulator is enough for eight digits. */
  method ParseHex32(buf: seq<u8>, at: nat) returns (v: Option<u32>)
    requires at + 8 <= |buf|
    ensures v == Hex(buf[at..at + 8])
  {
    hide Hex, HexNibble;
    NoDigits();
    assert buf[at..at] == [];
    var acc: nat := 0;
    for i := 0 to 8
      invariant Hex(buf[at..at + i]) == Some(acc) && acc < Pow16(i)
    {
      var n := HexNibble(buf[at + i]);
      HexAppends(buf[at..at + i], buf[at + i]);
      assert buf[at..at + i + 1] == buf[at..at + i] + [buf[at + i]];
      if n == 0xFF {
        assert buf[at..at + 8][..i + 1] == buf[at..at + i + 1];
        NoHexPrefix(buf[at..at + 8], i + 1);
        return None;
      }
      acc := acc * 16 + n;
    }
    assert Pow16(8) == 0x1_0000_0000 by { assert Pow16(4) == 0x1_0000; assert Pow16(8) == 0x1_0000 * Pow16(4); }
    return Some(acc);
  }

  lemma {:induction false} NoHexPrefix(s: seq<u8>, n: nat)
    requires n <= |s| && Hex(s[..n]).None?
    ensures Hex(s).None?
  {
    if n == |s| {
      assert s[..n] == s;
    } else {
      assert s[..|s| - 1][..n] == s[..n];
      NoHexPrefix(s[..|s| - 1], n);
    }
  }

  // ---- The read loop ---------------------------------------------------------------------

  /** How one request goes: are the two sends accepted, and what arrives. */
  datatype Attempt = Attempt(reqSent: bool, fcSent: bool, rx: seq<Event>)

  function Answer(a: Attempt): Response { if a.reqSent then Reassemble(Ours(a.rx), 0, a.fcSent) else Failed(0) }

  /** A positive answer that carries the whole block. */
  predicate Usable(r: Response, blk: nat) { r.Payload? && |r.p| >= 1 + blk && r.p[0] == RMBA_POS }

  /** The environment of one command: the attempts at each block, and the fate of each queue send. */
  datatype Env = Env(attempt: (u32, nat, nat) -> Attempt, txOk: nat -> bool)

  function BlockSize(remaining: nat): nat { if remaining > READ_BLOCK then READ_BLOCK else remaining }

  /** None of the attempts at a block brings a usable answer. */
  predicate Unanswered(env: Env, addr: u32, blk: nat) {
    forall t | 0 <= t < 4 :: !Usable(Answer(env.attempt(addr, blk, t)), blk)
  }

  ghost predicate SomeBlockUnanswered(env: Env, start: nat, length: nat) {
    exists n: nat | n < length && n % 0x400 == 0 :: Unanswered(env, Wrap(start + n), BlockSize(length - n))
  }

  /**
   * With every send accepted, an answer is usable exactly when the ECU's frames carry a positive
   * answer with the whole block, behind at most 16 response-pending codes.
   */
  lemma UsableExactly(a: Attempt, blk: nat)
    requires a.fcSent
    ensures Usable(Answer(a), blk) <==>
      a.reqSent && exists p | |p| >= 1 + blk && p[0] == 0x63 :: Answers(Ours(a.rx), p, 16)
  {
    hide Ours, Reassemble, Answers;
    if Usable(Answer(a), blk) {
      ReassemblyIsExact(a.rx, Answer(a).p);
    }
    if p :| a.reqSent && |p| >= 1 + blk && p[0] == 0x63 && Answers(Ours(a.rx), p, 16) {
      ReassemblyIsExact(a.rx, p);
    }
  }

  /** The attempt goes through, and the ECU answers with these bytes. */
  ghost predicate Serves(a: Attempt, bytes: seq<u8>) {
    a.reqSent && a.fcSent && Answers(Ours(a.rx), [0x63] + bytes, 16)
  }

  ghost predicate Served(env: Env, mem: u32 -> u8, addr: u32, blk: nat) {
    exists t | 0 <= t < 4 :: Serves(env.attempt(addr, blk, t), Memory(mem, addr, blk))
  }

  /** One of four attempts at each block of at most 0x400 bytes is served with that block of the memory. */
  ghost predicate EveryBlockIsServed(env: Env, mem: u32 -> u8, start: nat, length: nat) {
    forall n: nat | n < length && n % 0x400 == 0 ::
      Served(env, mem, Wrap(start + n), if length - n > 0x400 then 0x400 else length - n)
  }

  /** A read of served blocks does not fail for want of an answer. */
  lemma ServedBlocksAreAnswered(env: Env, mem: u32 -> u8, start: nat, length: nat)
    requires EveryBlockIsServed(env, mem, start, length)
    ensures !SomeBlockUnanswered(env, start, length)
  {
    hide Answers, Ours, Reassemble, Usable, Memory, Wrap;
    forall n: nat | n < length && n % 0x400 == 0
      ensures !Unanswered(env, Wrap(start + n), BlockSize(length - n))
    {
      var blk := BlockSize(length - n);
      var t :| 0 <= t < 4 &&
        Serves(env.attempt(Wrap(start + n), blk, t), Memory(mem, Wrap(start + n), blk));
      var p := [0x63] + Memory(mem, Wrap(start + n), blk);
      UsableExactly(env.attempt(Wrap(start + n), blk, t), blk);
      assert |p| >= 1 + blk && p[0] == 0x63;
    }
  }

  datatype Buffer = Version | Sync | Block(bytes: seq<u8>) | ErrorText

  /** Addresses are 32-bit and wrap. */
  function Wrap(n: nat): u32 { n % 0x1_0000_0000 }

  function Memory(mem: u32 -> u8, start: nat, n: nat): (s: seq<u8>)
    ensures |s| == n
  {
    if n == 0 then [] else Memory(mem, start, n - 1) + [mem(Wrap(start + n - 1))]
  }

  lemma {:induction false} MemorySplits(mem: u32 -> u8, start: nat, a: nat, b: nat)
    ensures Memory(mem, start, a + b) == Memory(mem, start, a) + Memory(mem, start + a, b)
  {
    if b == 0 {
      assert Memory(mem, start, a) + [] == Memory(mem, start, a);
    } else {
      MemorySplits(mem, start, a, b - 1);
      assert Memory(mem, start, a + b) == Memory(mem, start, a + (b - 1)) + [mem(Wrap(start + a + b - 1))];
    }
  }

  /** The ECU answers a request, if at all, with the bytes of the memory it names. */
  ghost predicate Honest(env: Env, mem: u32 -> u8) {
    forall addr: u32, blk: nat, t: nat ::
      var r := Answer(env.attempt(addr, blk, t));
      blk <= 0x400 && Usable(r, blk) ==> r.p[1..1 + blk] == Memory(mem, addr, blk)
  }

  function Bytes(bs: seq<Buffer>): seq<u8> {
    if bs == [] then []
    else Bytes(bs[..|bs| - 1]) + if bs[|bs| - 1].Block? then bs[|bs| - 1].bytes else []
  }

  /** Nothing but blocks: what the host reads as ROM. */
  predicate AllBlocks(bs: seq<Buffer>) { forall i | 0 <= i < |bs| :: bs[i].Block? }

  /** What a first frame commits the reader to, however many pending codes came before it. */
  lemma FirstFrameStep(d: Data, more: seq<Data>, pending: nat, fcSent: bool)
    requires Pci(d) == 1
    ensures var total := Low(d) * 256 + d[1];
      Reassemble([d] + more, pending, fcSent) ==
        if total < 8 || total > RESP_MAX then Failed(4)
        else if !fcSent then Failed(5)
        else Consecutive(more, d[2..], total, 1)
  {
    assert ([d] + more)[1..] == more;
  }

  lemma SlicesAgree(s: seq<u8>, n: nat, blk: nat)
    requires 1 + blk <= n <= |s|
    ensures s[..n][1..1 + blk] == s[1..1 + blk] && s[..n][0] == s[0]
  {
  }

  class FastReader {
    const resp: array<u8>
    var busy: bool
    var flashActive: bool
    var rxRunning: bool
    /** What this command has put on the host's queue. */
    var sent: seq<Buffer>
    var sends: nat

    predicate Valid()
      reads this
    {
      resp.Length == RESP_MAX
    }

    constructor ()
      ensures Valid() && fresh(resp) && !busy && !flashActive && rxRunning && sent == []
    {
      resp := new u8[RESP_MAX](_ => 0);
      busy, flashActive, rxRunning, sent, sends := false, false, true, [], 0;
    }

    method TxSend(env: Env, b: Buffer) returns (ok: bool)
      modifies this`sent, this`sends
      ensures sends == old(sends) + 1 && ok == env.txOk(old(sends))
      ensures sent == old(sent) + (if ok then [b] else [])
    {
      ok := env.txOk(sends);
      sends := sends + 1;
      if ok {
        sent := sent + [b];
      }
    }

    /** recv_matching: the next frame of ours from position `i` on. */
    method RecvMatching(rx: seq<Event>, i: nat) returns (got: Option<Data>, next: nat)
      requires i <= |rx|
      ensures i <= next <= |rx|
      ensures match got
        case None => Ours(rx[i..]) == []
        case Some(d) => Ours(rx[i..]) == [d] + Ours(rx[next..])
    {
      next := i;
      while next < |rx| && rx[next].Got?
        invariant i <= next <= |rx| && Ours(rx[i..]) == Ours(rx[next..])
      {
        var f := rx[next].f;
        assert rx[next..][1..] == rx[next + 1..];
        next := next + 1;
        if FromEcu(f) {
          return Some(f.data), next;
        }
      }
      return None, next;
    }

    /** read_one_block: the reassembled payload ends up in the response buffer. */
    method ReadOneBlock(a: Attempt) returns (ok: bool, len: nat)
      requires Valid()
      modifies resp
      ensures len <= RESP_MAX
      ensures ok == Answer(a).Payload?
      ensures ok ==> resp[..len] == Answer(a).p
    {
      hide Ours, Consecutive;
      ok, len := false, 0;
      if !a.reqSent {
        return;
      }
      var i, pending := 0, 0;
      assert a.rx[0..] == a.rx;
      while true
        invariant 0 <= i <= |a.rx| && pending <= MAX_PENDING
        invariant Answer(a) == Reassemble(Ours(a.rx[i..]), pending, a.fcSent)
        decreases MAX_PENDING - pending
      {
        var rest := Ours(a.rx[i..]);
        var got, next := RecvMatching(a.rx, i);
        if got.None? {
          return;
        }
        var d := got.value;
        assert rest[0] == d && rest[1..] == Ours(a.rx[next..]);
        i := next;
        if Pci(d) == 0 {
          var total := Low(d);
          if total < 1 || total > 7 {
            return;
          }
          if total >= 3 && d[1] == NRC && d[3] == RESPONSE_PENDING {
            pending := pending + 1;
            if pending > MAX_PENDING {
              return;
            }
          } else {
            CopyTo(d[1..1 + total], 0);
            return true, total;
          }
        } else if Pci(d) != 1 {
          return;
        } else {
          FirstFrameStep(d, Ours(a.rx[i..]), pending, a.fcSent);
          FirstFrameStep(d, Ours(a.rx[i..]), 0, a.fcSent);
          ok, len := ReadRest(a, d, i);
          return;
        }
      }
    }

    /** The first frame has come: flow control, then the consecutive frames. */
    method ReadRest(a: Attempt, d: Data, start: nat) returns (ok: bool, len: nat)
      requires Valid() && Pci(d) == 1 && start <= |a.rx|
      modifies resp
      ensures len <= RESP_MAX
      ensures var r := Reassemble([d] + Ours(a.rx[start..]), 0, a.fcSent);
        ok == r.Payload? && (ok ==> resp[..len] == r.p)
    {
      ok, len := false, 0;
      var total := Low(d) * 256 + d[1];
      ghost var whole := Reassemble([d] + Ours(a.rx[start..]), 0, a.fcSent);
      FirstFrameStep(d, Ours(a.rx[start..]), 0, a.fcSent);
      if total < 8 || total > RESP_MAX {
        return;
      }
      CopyTo(d[2..], 0);
      assert resp[..6] == d[2..];
      var idx := 6;
      if !a.fcSent {
        return;
      }
      var expected: nat := 1;
      var i := start;
      while idx < total
        invariant 6 <= idx <= total && start <= i <= |a.rx|
        invariant whole == Consecutive(Ours(a.rx[i..]), resp[..idx], total, expected)
      {
        ghost var rest := Ours(a.rx[i..]);
        var got, next := RecvMatching(a.rx, i);
        if got.None? {
          return;
        }
        var c := got.value;
        assert rest[0] == c && rest[1..] == Ours(a.rx[next..]);
        if Pci(c) != 2 {
          return;
        }
        if Low(c) != expected {
          return;
        }
        var take := Take(total - idx);
        CopyTo(c[1..1 + take], idx);
        idx := idx + take;
        i := next;
        expected := (expected + 1) % 16;
      }
      return true, total;
    }

    method CopyTo(src: seq<u8>, at: nat)
      requires Valid() && at + |src| <= RESP_MAX
      modifies resp
      ensures resp[..at + |src|] == old(resp[..at]) + src
    {
      for k := 0 to |src|
        invariant resp[..at + k] == old(resp[..at]) + src[..k]
      {
        resp[at + k] := src[k];
        assert resp[..at + k + 1] == resp[..at + k] + [src[k]];
      }
    }

    /** Up to four tries at one block: true with the block in the buffer. */
    method TryBlock(env: Env, addr: u32, blk: nat, ghost mem: u32 -> u8) returns (ok: bool)
      requires Valid() && 1 <= blk <= READ_BLOCK && Honest(env, mem)
      modifies resp
      ensures ok ==> resp[1..1 + blk] == Memory(mem, addr, blk)
      ensures !ok ==> Unanswered(env, addr, blk)
    {
      ok := false;
      var t := 0;
      while t < BLOCK_RETRIES
        invariant 0 <= t <= BLOCK_RETRIES
        invariant forall u | 0 <= u < t :: !Usable(Answer(env.attempt(addr, blk, u)), blk)
      {
        ghost var r := Answer(env.attempt(addr, blk, t));
        var got, rlen := ReadOneBlock(env.attempt(addr, blk, t));
        if got {
          assert |r.p| == rlen;
          if rlen >= 1 + blk && resp[0] == RMBA_POS {
            SlicesAgree(resp[..], rlen, blk);
            assert resp[..rlen] == resp[..][..rlen] && resp[1..1 + blk] == resp[..][1..1 + blk];
            return true;
          }
        }
        t := t + 1;
      }
    }

    /**
     * ncflash_fast_read. Assuming the ECU answers each request only with the bytes it names:
     * success means that the host was sent the marker and then exactly the memory asked for; every
     * other end has sent the marker and whole blocks of its beginning at most, before any error text;
     * every exit after the bus was claimed resumes the receive task and releases the bus. The read
     * fails only for cause: a block that four attempts left without a usable answer, or a queue send
     * the host did not drain. So it succeeds if every block is served and the host drains the queue.
     */
    method Read(cmd: seq<u8>, env: Env, ghost mem: u32 -> u8) returns (rc: int)
      requires Valid() && sent == [] && rxRunning && Honest(env, mem)
      modifies this, resp
      ensures Valid() && busy == old(busy) && rxRunning
      ensures flashActive == old(flashActive)
      ensures rc in {0, -1, -2, -3}
      ensures rc == -1 ==> sent == []
      ensures var ok := |cmd| >= 17 && cmd[0] == 88;
        var start := if ok then Hex(cmd[1..9]) else None;
        var length := if ok then Hex(cmd[9..17]) else None;
        if start.None? || length.None? || length.value == 0 then rc == -1
        else if start.value == 0xFFFF_FFFE then rc == 0 && (sent == [Version] || sent == [])
        else if old(busy) || old(flashActive) then rc == -1
        else
          && rc != -1 && Streamed(mem, start.value, length.value, rc, sent)
          && (rc == -2 ==> SomeBlockUnanswered(env, start.value, length.value))
          && (rc == -3 ==> exists k | old(sends) <= k < sends :: !env.txOk(k))
          && (EveryBlockIsServed(env, mem, start.value, length.value) && rc != -3 ==> rc == 0)
    {
      if |cmd| < 17 || cmd[0] != 88 {
        return -1;
      }
      var start := ParseHex32(cmd, 1);
      if start.None? {
        return -1;
      }
      var length := ParseHex32(cmd, 9);
      if length.None? || length.value == 0 {
        return -1;
      }
      if start.value == PING_ADDR {
        var _ := TxSend(env, Version);
        return 0;
      }
      if busy || flashActive {
        return -1;
      }
      busy := true;
      flashActive := true;
      rxRunning := false;
      var ok := TxSend(env, Sync);
      if !ok {
        rc := -3;
      } else {
        rc := Stream(env, start.value, length.value, mem);
        if EveryBlockIsServed(env, mem, start.value, length.value) {
          ServedBlocksAreAnswered(env, mem, start.value, length.value);
        }
      }
      // cleanup
      rxRunning := true;
      flashActive := false;
      busy := false;
    }

    /** The block loop. */
    method Stream(env: Env, start: u32, length: nat, ghost mem: u32 -> u8) returns (rc: int)
      requires Valid() && sent == [Sync] && length > 0 && Honest(env, mem)
      modifies this`sent, this`sends, resp
      ensures rc in {0, -2, -3} && Streamed(mem, start, length, rc, sent)
      ensures rc == -2 ==> SomeBlockUnanswered(env, start, length)
      ensures rc == -3 ==> exists k | old(sends) <= k < sends :: !env.txOk(k)
    {
      hide Honest, Memory, Streamed, WholeBlocks, Wrap, Usable, Answer;
      WrapFits(start);
      var addr: u32, remaining: nat := start, length;
      ghost var done: nat, blocks: seq<Buffer> := 0, [];
      NothingYet(mem, start);
      while remaining > 0
        invariant done + remaining == length && addr == Wrap(start + done)
        invariant remaining > 0 ==> done % READ_BLOCK == 0
        invariant old(sends) <= sends
        invariant sent == [Sync] + blocks && WholeBlocks(mem, start, done, blocks)
      {
        var blk := BlockSize(remaining);
        var ok := TryBlock(env, addr, blk, mem);
        if !ok {
          assert Unanswered(env, Wrap(start + done), BlockSize(length - done));
          var _ := TxSend(env, ErrorText);
          StreamedWith(mem, start, length, -2, sent, blocks, done);
          return -2;
        }
        var b := Block(resp[1..1 + blk]);
        var out := TxSend(env, b);
        if !out {
          StreamedWith(mem, start, length, -3, sent, blocks, done);
          return -3;
        }
        OneMoreBlock(mem, start, done, blocks, b.bytes);
        blocks := blocks + [b];
        addr := Wrap(addr + blk);
        done, remaining := done + blk, remaining - blk;
      }
      StreamedWith(mem, start, length, 0, sent, blocks, done);
      return 0;
    }
  }

  /** The blocks sent so far are all blocks and spell out the first `done` bytes. */
  predicate WholeBlocks(mem: u32 -> u8, start: nat, done: nat, bs: seq<Buffer>) {
    AllBlocks(bs) && Bytes(bs) == Memory(mem, start, done)
  }

  lemma NothingYet(mem: u32 -> u8, start: nat)
    ensures WholeBlocks(mem, start, 0, [])
  {
  }

  lemma OneMoreBlock(mem: u32 -> u8, start: nat, done: nat, bs: seq<Buffer>, bytes: seq<u8>)
    requires WholeBlocks(mem, start, done, bs)
    requires bytes == Memory(mem, Wrap(start + done), |bytes|)
    ensures WholeBlocks(mem, start, done + |bytes|, bs + [Block(bytes)])
    ensures Wrap(Wrap(start + done) + |bytes|) == Wrap(start + (done + |bytes|))
  {
    hide *;
    assert AllBlocks(bs) && Bytes(bs) == Memory(mem, start, done) by { AreWholeBlocks(mem, start, done, bs); }
    BytesGrow(bs, bytes);
    MemorySplits(mem, start, done, |bytes|);
    MemoryWraps(mem, start + done, |bytes|);
    WrapsOnce(start + done, |bytes|);
    AreWholeBlocks(mem, start, done + |bytes|, bs + [Block(bytes)]);
  }

  lemma AreWholeBlocks(mem: u32 -> u8, start: nat, done: nat, bs: seq<Buffer>)
    ensures WholeBlocks(mem, start, done, bs) <==> AllBlocks(bs) && Bytes(bs) == Memory(mem, start, done)
  {
    hide AllBlocks, Bytes, Memory;
  }

  lemma BytesGrow(bs: seq<Buffer>, bytes: seq<u8>)
    ensures Bytes(bs + [Block(bytes)]) == Bytes(bs) + bytes
    ensures AllBlocks(bs) ==> AllBlocks(bs + [Block(bytes)])
  {
    assert (bs + [Block(bytes)])[..|bs|] == bs;
  }

  lemma StreamedWith(mem: u32 -> u8, start: nat, length: nat, rc: int, sent: seq<Buffer>, bs: seq<Buffer>, done: nat)
    requires WholeBlocks(mem, start, done, bs) && done <= length && (done < length ==> done % READ_BLOCK == 0)
    requires (rc == 0) == (done == length)
    requires sent == [Sync] + bs || (rc == -2 && sent == [Sync] + bs + [ErrorText])
    ensures Streamed(mem, start, length, rc, sent)
  {
  }

  lemma {:induction false} MemoryWraps(mem: u32 -> u8, start: nat, n: nat)
    ensures Memory(mem, Wrap(start), n) == Memory(mem, start, n)
  {
    hide Wrap;
    if n > 0 {
      MemoryWraps(mem, start, n - 1);
      WrapsOnce(start, n - 1);
    }
  }

  lemma WrapFits(a: u32)
    ensures Wrap(a) == a
  {
  }

  lemma WrapsOnce(start: nat, k: nat)
    ensures Wrap(Wrap(start) + k) == Wrap(start + k)
  {
    assert start + k == (start % 0x1_0000_0000 + k) + 0x1_0000_0000 * (start / 0x1_0000_0000);
  }

  /** The stream of a command that claimed the bus and ended with `rc`. */
  ghost predicate Streamed(mem: u32 -> u8, start: nat, length: nat, rc: int, sent: seq<Buffer>) {
    if rc == 0 then
      exists bs :: sent == [Sync] + bs && WholeBlocks(mem, start, length, bs)
    else
      sent == [] ||
      exists bs, n: nat :: n < length && n % 0x400 == 0 && WholeBlocks(mem, start, n, bs)
        && (sent == [Sync] + bs || (rc == -2 && sent == [Sync] + bs + [ErrorText]))
  }
}
