/**
 * The chunked-body decoder of main/multipart_upload.c: a resumable byte machine that copies chunk
 * data in bulk, bounded by the input, the chunk and the space left in the output buffer. It
 * decodes the format of section 7.1 of RFC 9112, leniently.
 */
module Dechunker {
  import opened Words

  const CR: u8 := 13
  const LF: u8 := 10
  const SEMICOLON: u8 := 59
  const SIZE_DIGITS := 15

  predicate IsBlank(b: u8) { b == 32 || b == 9 }
  predicate IsHex(b: u8) { 48 <= b <= 57 || 65 <= b <= 70 || 97 <= b <= 102 }

  function HexDigit(b: u8): (v: nat)
    requires IsHex(b)
    ensures v <= 15
  {
    if b <= 57 then b - 48 else if b <= 70 then b - 55 else b - 87
  }

  predicate AllHex(s: seq<u8>) { forall i | 0 <= i < |s| :: IsHex(s[i]) }

  function Hex(s: seq<u8>): nat
    requires AllHex(s)
  {
    if s == [] then 0 else 16 * Hex(s[..|s| - 1]) + HexDigit(s[|s| - 1])
  }

  /** strtoul on a 32-bit target. */
  function ChunkSize(s: seq<u8>): u32
    requires AllHex(s)
  {
    if Hex(s) < TWO32 then Hex(s) else TWO32 - 1
  }

  datatype Phase = ReadSize | ReadData | ReadDataCrlf | ReadTrailers | Done | Error

  datatype State = State(phase: Phase, remaining: u32, inExt: bool, size: seq<u8>, trailerLen: u32)

  const INIT := State(ReadSize, 0, false, [], 0)

  predicate Valid(d: State) {
    AllHex(d.size) && |d.size| <= SIZE_DIGITS && (d.phase.ReadData? ==> d.remaining > 0)
  }

  // ---- One byte at a time ----------------------------------------------------------------

  /** Is the byte consumed? Otherwise it stays in the input and the machine stops. */
  predicate Accepts(d: State, b: u8) {
    match d.phase
    case ReadSize =>
      if b == LF then d.size != []
      else b == CR || b == SEMICOLON || d.inExt || (IsHex(b) && |d.size| < SIZE_DIGITS) || IsBlank(b)
    case ReadData => true
    case ReadDataCrlf => b == CR || b == LF
    case ReadTrailers => true
    case _ => false
  }

  function Step(d: State, b: u8): (d': State)
    requires Valid(d)
    ensures Valid(d')
  {
    if d.phase.Done? || d.phase.Error? then d
    else if !Accepts(d, b) then d.(phase := Error)
    else
      match d.phase
      case ReadSize =>
        if b == CR then d
        else if b == LF then
          var n := ChunkSize(d.size);
          if n == 0 then State(ReadTrailers, 0, false, [], 0)
          else d.(phase := ReadData, remaining := n, size := [], inExt := false)
        else if b == SEMICOLON then d.(inExt := true)
        else if !d.inExt && IsHex(b) then d.(size := d.size + [b])
        else d
      case ReadData =>
        if d.remaining == 1 then d.(remaining := 0, phase := ReadDataCrlf) else d.(remaining := d.remaining - 1)
      case ReadDataCrlf =>
        if b == CR then d else d.(phase := ReadSize, size := [], inExt := false)
      case ReadTrailers =>
        if b == CR then d
        else if b != LF then d.(trailerLen := (d.trailerLen + 1) % 0x1_0000_0000)
        else if d.trailerLen == 0 then d.(phase := Done)
        else d.(trailerLen := 0)
      case _ => d
  }

  function Emits(d: State, b: u8): (e: seq<u8>)
    ensures |e| == if d.phase.ReadData? then 1 else 0
  {
    if d.phase.ReadData? then [b] else []
  }

  datatype Run = Run(d: State, used: nat, out: seq<u8>)

  /** Put `used` consumed bytes and the output `out` in front of a run. */
  function Before(used: nat, out: seq<u8>, r: Run): Run { Run(r.d, used + r.used, out + r.out) }

  lemma BeforeFields(n: nat, o: seq<u8>, r: Run)
    ensures var b := Before(n, o, r); b.d == r.d && b.used == n + r.used && b.out == o + r.out
  {
  }

  lemma BeforeBoth(n: nat, o: seq<u8>, k: nat, p: seq<u8>, r: Run)
    ensures Before(n, o, Before(k, p, r)) == Before(n + k, o + p, r)
  {
    assert o + (p + r.out) == o + p + r.out;
  }

  lemma EmptyBefore(r: Run)
    ensures Before(0, [], r) == r
  {
  }

  lemma BeforeEmpty(n: nat, o: seq<u8>, d: State)
    ensures Before(n, o, Run(d, 0, [])) == Run(d, n, o)
  {
  }

  /** The reference decoder: byte by byte, all the output space in the world. */
  function Decode(d: State, s: seq<u8>): (r: Run)
    requires Valid(d)
    ensures Valid(r.d) && r.used <= |s|
    decreases |s|
  {
    if s == [] then Run(d, 0, [])
    else if !Accepts(d, s[0]) then Run(Step(d, s[0]), 0, [])
    else Before(1, Emits(d, s[0]), Decode(Step(d, s[0]), s[1..]))
  }

  /** The same with room for `cap` output bytes: it pauses in front of a data byte without room. */
  function Consume(d: State, s: seq<u8>, cap: nat): (r: Run)
    requires Valid(d)
    ensures Valid(r.d) && r.used <= |s| && |r.out| <= cap
    decreases |s|
  {
    if s == [] || (d.phase.ReadData? && cap == 0) then Run(d, 0, [])
    else if !Accepts(d, s[0]) then Run(Step(d, s[0]), 0, [])
    else
      var e := Emits(d, s[0]);
      Before(1, e, Consume(Step(d, s[0]), s[1..], cap - |e|))
  }

  lemma RefusedStaysPut(d: State, b: u8, s: seq<u8>)
    requires Valid(d) && !Accepts(d, b)
    ensures Decode(Step(d, b), s) == Run(Step(d, b), 0, [])
  {
  }

  /** Pausing loses nothing: the unlimited decoder goes on from where a call stopped. */
  lemma {:induction false} ConsumeThenDecode(d: State, s: seq<u8>, cap: nat, more: seq<u8>)
    requires Valid(d)
    ensures var r := Consume(d, s, cap);
      Decode(d, s + more) == Before(r.used, r.out, Decode(r.d, s[r.used..] + more))
    decreases |s|
  {
    hide Step, Accepts, Emits, Before;
    if s == [] || (d.phase.ReadData? && cap == 0) {
      assert s[0..] == s;
      EmptyBefore(Decode(d, s + more));
    } else if !Accepts(d, s[0]) {
      EmptyBefore(Decode(d, s + more));
      assert s[0..] == s && (s + more)[0] == s[0];
      RefusedStaysPut(d, s[0], s + more);
    } else {
      var e := Emits(d, s[0]);
      assert (s + more)[0] == s[0] && (s + more)[1..] == s[1..] + more;
      ConsumeThenDecode(Step(d, s[0]), s[1..], cap - |e|, more);
      var r := Consume(Step(d, s[0]), s[1..], cap - |e|);
      BeforeFields(1, e, r);
      assert s[1 + r.used..] == s[1..][r.used..];
      BeforeBoth(1, e, r.used, r.out, Decode(r.d, s[1 + r.used..] + more));
    }
  }

  /**
   * Progress. Given input and output space, a call from any state but Done and Error consumes at
   * least a byte, unless the first byte is one the state cannot take: then the state is Error.
   */
  lemma ConsumeProgresses(d: State, s: seq<u8>, cap: nat)
    requires Valid(d) && s != [] && cap >= 1 && !d.phase.Done? && !d.phase.Error?
    ensures Consume(d, s, cap).used >= 1 <==> Accepts(d, s[0])
    ensures !Accepts(d, s[0]) ==> Consume(d, s, cap).d.phase.Error?
  {
  }

  // ---- Decoding undoes encoding ----------------------------------------------------------

  const CRLF: seq<u8> := [13, 10]

  lemma DigitValues(b: u8, v: nat)
    requires v < 16
    ensures IsDigitOf(b, v) <==> IsHex(b) && HexDigit(b) == v
  {
  }

  lemma AllHexSplits(s: seq<u8>)
    requires s != []
    ensures AllHex(s) <==> AllHex(s[..|s| - 1]) && IsHex(s[|s| - 1])
  {
  }

  /** What the decoder reads off digits is the number they spell, and it takes nothing else for digits. */
  lemma {:induction false} HexReadsWhatIsSpelled(s: seq<u8>, n: nat)
    ensures Spells(s, n) <==> s != [] && AllHex(s) && Hex(s) == n
    decreases |s|
  {
    if s != [] {
      var front, b := s[..|s| - 1], s[|s| - 1];
      DigitValues(b, n % 16);
      HexReadsWhatIsSpelled(front, n / 16);
      AllHexSplits(s);
      assert |s| == 1 ==> front == [] && Hex(front) == 0;
      hide IsDigitOf, IsHex, HexDigit, AllHex;
      if AllHex(s) {
        var v := HexDigit(b);
        assert Hex(s) == 16 * Hex(front) + v && v <= 15;
        assert 16 * (n / 16) + n % 16 == n;
      }
    }
  }

  /** Blanks, then nothing or ";" and anything without a line feed. */
  predicate ExtensionOk(e: seq<u8>) {
    e == [] || (e[0] == 59 && 10 !in e) || ((e[0] == 32 || e[0] == 9) && ExtensionOk(e[1..]))
  }

  /** One to fifteen digits that spell `n`. */
  predicate SizeOk(s: seq<u8>, n: nat) { |s| <= 15 && Spells(s, n) }

  /** A trailer line may contain anything but line ends. */
  predicate TrailerOk(t: seq<u8>) { 1 <= |t| < TWO32 && 13 !in t && 10 !in t }

  datatype Chunk = Chunk(size: seq<u8>, ext: seq<u8>, data: seq<u8>)

  predicate ChunkOk(c: Chunk) { SizeOk(c.size, |c.data|) && ExtensionOk(c.ext) && 0 < |c.data| < TWO32 }

  function SizeLine(size: seq<u8>, ext: seq<u8>): seq<u8> { size + ext + CRLF }

  function ChunkText(c: Chunk): seq<u8> { SizeLine(c.size, c.ext) + c.data + CRLF }

  function Encode(cs: seq<Chunk>, zeros: seq<u8>, ext: seq<u8>, trailers: seq<seq<u8>>): seq<u8> {
    if cs == [] then SizeLine(zeros, ext) + EncodeTrailers(trailers)
    else ChunkText(cs[0]) + Encode(cs[1..], zeros, ext, trailers)
  }

  function EncodeTrailers(ts: seq<seq<u8>>): seq<u8> {
    if ts == [] then CRLF else ts[0] + CRLF + EncodeTrailers(ts[1..])
  }

  function Body(cs: seq<Chunk>): seq<u8> { if cs == [] then [] else cs[0].data + Body(cs[1..]) }

  /** Take all of `s` from `d`: the state and output after it, unless a byte is refused on the way. */
  datatype Meal = Choked | Ate(d: State, out: seq<u8>)

  function Eat(d: State, s: seq<u8>): (m: Meal)
    requires Valid(d)
    ensures m.Ate? ==> Valid(m.d)
    decreases |s|
  {
    if s == [] then Ate(d, [])
    else if !Accepts(d, s[0]) then Choked
    else
      var m := Eat(Step(d, s[0]), s[1..]);
      if m.Choked? then m else Ate(m.d, Emits(d, s[0]) + m.out)
  }

  /** What was eaten is decoded, whatever comes after it. */
  lemma {:induction false} EatenIsDecoded(d: State, s: seq<u8>, rest: seq<u8>)
    requires Valid(d) && Eat(d, s).Ate?
    ensures var m := Eat(d, s); Decode(d, s + rest) == Before(|s|, m.out, Decode(m.d, rest))
    decreases |s|
  {
    hide Step, Accepts, Emits, Before;
    if s == [] {
      assert s + rest == rest;
      EmptyBefore(Decode(d, rest));
    } else {
      assert (s + rest)[0] == s[0] && (s + rest)[1..] == s[1..] + rest;
      EatenIsDecoded(Step(d, s[0]), s[1..], rest);
      var m := Eat(Step(d, s[0]), s[1..]);
      BeforeBoth(1, Emits(d, s[0]), |s| - 1, m.out, Decode(m.d, rest));
    }
  }

  predicate Eats(d: State, s: seq<u8>, d': State, out: seq<u8>) {
    Valid(d) && Eat(d, s) == Ate(d', out)
  }

  lemma {:induction false} EatsBoth(d: State, s: seq<u8>, d1: State, o: seq<u8>, t: seq<u8>, d2: State, o': seq<u8>)
    requires Eats(d, s, d1, o) && Eats(d1, t, d2, o')
    ensures Eats(d, s + t, d2, o + o')
    decreases |s|
  {
    hide Step, Accepts, Emits;
    if s == [] {
      assert s + t == t;
      assert o + o' == o';
    } else {
      var d0 := Step(d, s[0]);
      var e, m := Emits(d, s[0]), Eat(d0, s[1..]);
      EatsBoth(d0, s[1..], d1, m.out, t, d2, o');
      assert (s + t)[0] == s[0] && (s + t)[1..] == s[1..] + t;
      assert e + (m.out + o') == e + m.out + o';
    }
  }

  lemma {:induction false} EatsSize(d: State, s: seq<u8>)
    requires Valid(d) && d.phase.ReadSize? && !d.inExt && AllHex(s) && |d.size| + |s| <= SIZE_DIGITS
    ensures Eats(d, s, d.(size := d.size + s), [])
    decreases |s|
  {
    if s == [] {
      assert d.size + s == d.size;
    } else {
      var d1 := d.(size := d.size + [s[0]]);
      assert Accepts(d, s[0]) && Step(d, s[0]) == d1;
      EatsSize(d1, s[1..]);
      assert d1.size + s[1..] == d.size + s;
    }
  }

  /** An extension leaves the size digits alone. */
  lemma {:induction false} EatsExtension(d: State, e: seq<u8>) returns (x: bool)
    requires Valid(d) && d.phase.ReadSize? && (ExtensionOk(e) || (d.inExt && LF !in e))
    ensures Eats(d, e, d.(inExt := x), [])
    decreases |e|
  {
    x := d.inExt;
    if e != [] {
      assert e[0] in e;
      x := EatsExtension(Step(d, e[0]), e[1..]);
    }
  }

  lemma EatsLineEnd(d: State)
    requires Valid(d) && (d.phase.ReadTrailers? || d.phase.ReadDataCrlf? || (d.phase.ReadSize? && d.size != []))
    ensures Eats(d, CRLF, Step(d, LF), [])
  {
    assert CRLF[1..] == [LF] && [LF][1..] == [];
    assert Accepts(d, CR) && Step(d, CR) == d && Accepts(d, LF);
    assert Eat(d, [LF]) == Ate(Step(d, LF), []);
  }

  lemma EatsSizeLine(d: State, size: seq<u8>, ext: seq<u8>)
    requires Valid(d) && d.phase.ReadSize? && d.size == [] && !d.inExt
    requires AllHex(size) && 1 <= |size| <= SIZE_DIGITS && ExtensionOk(ext)
    ensures var n := ChunkSize(size);
      Eats(d, SizeLine(size, ext),
           if n == 0 then State(ReadTrailers, 0, false, [], 0) else State(ReadData, n, false, [], d.trailerLen), [])
  {
    var d1 := d.(size := size);
    EatsSize(d, size);
    assert d.size + size == size;
    var x := EatsExtension(d1, ext);
    var d2 := d1.(inExt := x);
    EatsLineEnd(d2);
    EatsBoth(d, size, d1, [], ext, d2, []);
    EatsBoth(d, size + ext, d2, [], CRLF, Step(d2, LF), []);
  }

  lemma {:induction false} EatsData(d: State, s: seq<u8>)
    requires Valid(d) && d.phase.ReadData? && |s| <= d.remaining
    ensures Eats(d, s, Advanced(d, |s|), s)
    decreases |s|
  {
    if |s| > 1 {
      EatsData(Step(d, s[0]), s[1..]);
    }
    if s != [] {
      assert s == [s[0]] + s[1..];
    }
  }

  /** The state after `k` bytes of chunk data. */
  function Advanced(d: State, k: nat): State
    requires d.phase.ReadData? && k <= d.remaining
  {
    var d' := d.(remaining := d.remaining - k);
    if d'.remaining == 0 then d'.(phase := ReadDataCrlf) else d'
  }

  lemma {:induction false} EatsTrailerLine(d: State, t: seq<u8>)
    requires Valid(d) && d.phase.ReadTrailers? && CR !in t && LF !in t && d.trailerLen + |t| < TWO32
    ensures Eats(d, t, d.(trailerLen := d.trailerLen + |t|), [])
    decreases |t|
  {
    if t != [] {
      assert t[0] in t;
      EatsTrailerLine(d.(trailerLen := d.trailerLen + 1), t[1..]);
    }
  }

  lemma {:induction false} EatsTrailers(d: State, ts: seq<seq<u8>>)
    requires Valid(d) && d.phase.ReadTrailers? && d.trailerLen == 0 && forall t | t in ts :: TrailerOk(t)
    ensures Eats(d, EncodeTrailers(ts), d.(phase := Done), [])
    decreases |ts|
  {
    if ts == [] {
      EatsLineEnd(d);
    } else {
      var t := ts[0];
      assert TrailerOk(t) by { assert t in ts; }
      EatsTrailerLine(d, t);
      var d1 := d.(trailerLen := |t|);
      EatsLineEnd(d1);
      EatsBoth(d, t, d1, [], CRLF, d, []);
      EatsTrailers(d, ts[1..]);
      EatsBoth(d, t + CRLF, d, [], EncodeTrailers(ts[1..]), d.(phase := Done), []);
    }
  }

  lemma SizeOfChunk(c: Chunk)
    requires ChunkOk(c)
    ensures AllHex(c.size) && 1 <= |c.size| <= SIZE_DIGITS && ChunkSize(c.size) == |c.data|
  {
    HexReadsWhatIsSpelled(c.size, |c.data|);
  }

  lemma SizeOfZeros(zeros: seq<u8>)
    requires SizeOk(zeros, 0)
    ensures AllHex(zeros) && 1 <= |zeros| <= SIZE_DIGITS && ChunkSize(zeros) == 0
  {
    HexReadsWhatIsSpelled(zeros, 0);
  }

  /** One chunk, up to and including its line end. */
  lemma EatsChunk(d: State, c: Chunk)
    requires Valid(d) && d.phase.ReadSize? && d.size == [] && !d.inExt && ChunkOk(c)
    ensures Eats(d, ChunkText(c), State(ReadSize, 0, false, [], d.trailerLen), c.data)
  {
    var d2 := State(ReadDataCrlf, 0, false, [], d.trailerLen);
    EatsChunkData(d, c);
    EatsLineEnd(d2);
    hide Eat, ChunkSize;
    EatsBoth(d, SizeLine(c.size, c.ext) + c.data, d2, c.data, CRLF, State(ReadSize, 0, false, [], d.trailerLen), []);
  }

  lemma EatsChunkData(d: State, c: Chunk)
    requires Valid(d) && d.phase.ReadSize? && d.size == [] && !d.inExt && ChunkOk(c)
    ensures Eats(d, SizeLine(c.size, c.ext) + c.data, State(ReadDataCrlf, 0, false, [], d.trailerLen), c.data)
  {
    hide Eat, ChunkSize;
    var d1 := State(ReadData, |c.data|, false, [], d.trailerLen);
    SizeOfChunk(c);
    EatsSizeLine(d, c.size, c.ext);
    EatsData(d1, c.data);
    EatsBoth(d, SizeLine(c.size, c.ext), d1, [], c.data, State(ReadDataCrlf, 0, false, [], d.trailerLen), c.data);
  }

  lemma {:induction false} EatsEncoding(d: State, cs: seq<Chunk>, zeros: seq<u8>, ext: seq<u8>, ts: seq<seq<u8>>)
    requires Valid(d) && d.phase.ReadSize? && d.size == [] && !d.inExt
    requires (forall c | c in cs :: ChunkOk(c)) && (forall t | t in ts :: TrailerOk(t))
    requires SizeOk(zeros, 0) && ExtensionOk(ext)
    ensures Eats(d, Encode(cs, zeros, ext, ts), State(Done, 0, false, [], 0), Body(cs))
    decreases |cs|
  {
    hide Eat, ChunkSize, ChunkText;
    var done := State(Done, 0, false, [], 0);
    if cs == [] {
      var d1 := State(ReadTrailers, 0, false, [], 0);
      SizeOfZeros(zeros);
      EatsSizeLine(d, zeros, ext);
      EatsTrailers(d1, ts);
      EatsBoth(d, SizeLine(zeros, ext), d1, [], EncodeTrailers(ts), done, []);
    } else {
      var c, d1 := cs[0], State(ReadSize, 0, false, [], d.trailerLen);
      assert c in cs;
      EatsChunk(d, c);
      EatsEncoding(d1, cs[1..], zeros, ext, ts);
      EatsBoth(d, ChunkText(c), d1, c.data, Encode(cs[1..], zeros, ext, ts), done, Body(cs[1..]));
    }
  }

  /** Round trip: any chunking of a body, with any extensions and trailers, decodes to the body. */
  lemma DecodeUndoesEncode(cs: seq<Chunk>, zeros: seq<u8>, ext: seq<u8>, ts: seq<seq<u8>>, rest: seq<u8>)
    requires (forall c | c in cs :: ChunkOk(c)) && (forall t | t in ts :: TrailerOk(t))
    requires SizeOk(zeros, 0) && ExtensionOk(ext)
    ensures var wire := Encode(cs, zeros, ext, ts);
      var r := Decode(INIT, wire + rest);
      r.d.phase.Done? && r.used == |wire| && r.out == Body(cs)
  {
    EatsEncoding(INIT, cs, zeros, ext, ts);
    EatenIsDecoded(INIT, Encode(cs, zeros, ext, ts), rest);
    var done := State(Done, 0, false, [], 0);
    assert Decode(done, rest) == Run(done, 0, []);
  }

  // ---- What is refused -------------------------------------------------------------------

  function ChunksText(cs: seq<Chunk>): seq<u8> {
    if cs == [] then [] else ChunkText(cs[0]) + ChunksText(cs[1..])
  }

  lemma {:induction false} EatsChunks(cs: seq<Chunk>)
    requires forall c | c in cs :: ChunkOk(c)
    ensures Eats(INIT, ChunksText(cs), INIT, Body(cs))
  {
    hide Eat, ChunkText;
    if cs == [] {
      EatsNothing(INIT);
    } else {
      assert cs[0] in cs;
      EatsChunk(INIT, cs[0]);
      EatsChunks(cs[1..]);
      EatsBoth(INIT, ChunkText(cs[0]), INIT, cs[0].data, ChunksText(cs[1..]), INIT, Body(cs[1..]));
    }
  }

  lemma EatsNothing(d: State)
    requires Valid(d)
    ensures Eats(d, [], d, [])
  {
  }

  lemma RefusedAfter(s: seq<u8>, d: State, out: seq<u8>, b: u8, rest: seq<u8>)
    requires Eats(INIT, s, d, out) && !Accepts(d, b) && !d.phase.Done? && !d.phase.Error?
    ensures Valid(d) && Decode(INIT, s + [b] + rest) == Run(d.(phase := Error), |s|, out)
  {
    EatenIsDecoded(INIT, s, [b] + rest);
    assert s + [b] + rest == s + ([b] + rest);
  }

  predicate IsHexByte(b: u8) { exists v | 0 <= v < 16 :: IsDigitOf(b, v) }

  lemma HexBytes(b: u8)
    ensures IsHexByte(b) <==> IsHex(b)
  {
    if IsHex(b) { assert IsDigitOf(b, HexDigit(b)); }
    forall v | 0 <= v < 16 ensures IsDigitOf(b, v) ==> IsHex(b) { DigitValues(b, v); }
  }

  /** The digits of a size line; blanks and carriage returns do not count, wherever they stand. */
  function DigitsOf(line: seq<u8>): seq<u8> {
    if line == [] then [] else (if IsHexByte(line[0]) then [line[0]] else []) + DigitsOf(line[1..])
  }

  predicate SizeByte(b: u8) { IsHexByte(b) || b in {13, 32, 9} }

  lemma {:induction false} EatsLooseSize(d: State, line: seq<u8>)
    requires Valid(d) && d.phase.ReadSize? && !d.inExt && (forall b | b in line :: SizeByte(b))
    requires |d.size| + |DigitsOf(line)| <= SIZE_DIGITS
    ensures Eats(d, line, d.(size := d.size + DigitsOf(line)), [])
    decreases |line|
  {
    if line == [] {
      assert d.size + [] == d.size;
    } else {
      var b := line[0];
      assert b in line && SizeByte(b);
      HexBytes(b);
      var d1 := if IsHex(b) then d.(size := d.size + [b]) else d;
      assert Accepts(d, b) && Step(d, b) == d1;
      EatsLooseSize(d1, line[1..]);
      assert d1.size + DigitsOf(line[1..]) == d.size + DigitsOf(line);
    }
  }

  /**
   * The size line to the letter. Digits count wherever blanks and carriage returns stand between them,
   * up to ";"; zero ends the chunks; and a number that does not fit 32 bits is taken for 2^32-1.
   */
  lemma SizeLineIsRead(line: seq<u8>, ext: seq<u8>, n: nat, rest: seq<u8>)
    requires (forall b | b in line :: SizeByte(b)) && SizeOk(DigitsOf(line), n)
    requires ext == [] || (ext[0] == 59 && 10 !in ext)
    ensures var d := if n == 0 then State(ReadTrailers, 0, false, [], 0)
                     else State(ReadData, if n <= 0xFFFF_FFFF then n else 0xFFFF_FFFF, false, [], 0);
      Valid(d) && Decode(INIT, line + ext + [10] + rest) == Before(|line| + |ext| + 1, [], Decode(d, rest))
  {
    var ds := DigitsOf(line);
    HexReadsWhatIsSpelled(ds, n);
    EatsLooseSize(INIT, line);
    assert INIT.size + ds == ds;
    var d1 := INIT.(size := ds);
    var x := EatsExtension(d1, ext);
    var d2 := d1.(inExt := x);
    var d3 := Step(d2, LF);
    assert Eats(d2, [10], d3, []) by { assert Accepts(d2, 10) && [10][1..] == []; }
    hide Eat, Step, Accepts, DigitsOf;
    EatsBoth(INIT, line, d1, [], ext, d2, []);
    EatsBoth(INIT, line + ext, d2, [], [10], d3, []);
    EatenIsDecoded(INIT, line + ext + [10], rest);
  }

  /** The byte cannot follow the digits `ds` of a size line. */
  predicate BadInSize(ds: seq<u8>, b: u8) {
    if b == 10 then ds == [] else b !in {13, 59, 32, 9} && (!IsHexByte(b) || |ds| == 15)
  }

  /**
   * A malformed size line is refused, whatever well-formed chunks come before it and whatever comes
   * after: no digits at all, a sixteenth digit, or anything but a digit, a blank, ";" and a line end.
   */
  lemma MalformedSizeIsRefused(cs: seq<Chunk>, ds: seq<u8>, b: u8, rest: seq<u8>)
    requires (forall c | c in cs :: ChunkOk(c)) && |ds| <= 15 && (forall x | x in ds :: IsHexByte(x))
    requires BadInSize(ds, b)
    ensures var r := Decode(INIT, ChunksText(cs) + ds + [b] + rest);
      r.d.phase.Error? && r.used == |ChunksText(cs)| + |ds| && r.out == Body(cs)
  {
    EatsChunks(cs);
    forall i | 0 <= i < |ds| ensures IsHex(ds[i]) { HexBytes(ds[i]); }
    HexBytes(b);
    EatsSize(INIT, ds);
    hide Eat, ChunksText;
    var d := INIT.(size := ds);
    assert INIT.size + ds == ds && Body(cs) + [] == Body(cs);
    EatsBoth(INIT, ChunksText(cs), INIT, Body(cs), ds, d, []);
    RefusedAfter(ChunksText(cs) + ds, d, Body(cs), b, rest);
  }

  /** And so is chunk data that is longer than its size line said. */
  lemma GarbageAfterDataIsRefused(cs: seq<Chunk>, c: Chunk, b: u8, rest: seq<u8>)
    requires (forall x | x in cs :: ChunkOk(x)) && ChunkOk(c) && b != 13 && b != 10
    ensures var s := ChunksText(cs) + (SizeLine(c.size, c.ext) + c.data);
      var r := Decode(INIT, s + [b] + rest);
      r.d.phase.Error? && r.used == |s| && r.out == Body(cs) + c.data
  {
    EatsChunks(cs);
    EatsChunkData(INIT, c);
    hide Eat, ChunksText, SizeLine;
    var d := State(ReadDataCrlf, 0, false, [], 0);
    EatsBoth(INIT, ChunksText(cs), INIT, Body(cs), SizeLine(c.size, c.ext) + c.data, d, c.data);
    RefusedAfter(ChunksText(cs) + (SizeLine(c.size, c.ext) + c.data), d, Body(cs) + c.data, b, rest);
  }

  // ---- Any split, any output buffer ---------------------------------------------------------

  /** A call: the bytes that have arrived since the last one, and the output space it is given. */
  datatype Call = Call(arrived: seq<u8>, cap: nat)

  /** What calls have got to: the machine, the bytes it left, how many it used, and the output. */
  datatype Session = Session(d: State, held: seq<u8>, used: nat, out: seq<u8>)

  function Calls(s: Session, cs: seq<Call>): (t: Session)
    requires Valid(s.d)
    ensures Valid(t.d)
    decreases |cs|
  {
    if cs == [] then s
    else
      var input := s.held + cs[0].arrived;
      var r := Consume(s.d, input, cs[0].cap);
      Calls(Session(r.d, input[r.used..], s.used + r.used, s.out + r.out), cs[1..])
  }

  function Arrivals(cs: seq<Call>): seq<u8> { if cs == [] then [] else cs[0].arrived + Arrivals(cs[1..]) }

  /** However the bytes are split and the output bounded, the calls walk along the reference run. */
  lemma {:induction false} CallsRefineDecode(s: Session, cs: seq<Call>, whole: Run)
    requires Valid(s.d) && whole == Before(s.used, s.out, Decode(s.d, s.held + Arrivals(cs)))
    ensures var t := Calls(s, cs); whole == Before(t.used, t.out, Decode(t.d, t.held))
    decreases |cs|
  {
    hide Consume, Decode, Before;
    if cs == [] {
      assert s.held + [] == s.held;
    } else {
      var input, later := s.held + cs[0].arrived, Arrivals(cs[1..]);
      var r := Consume(s.d, input, cs[0].cap);
      assert s.held + Arrivals(cs) == input + later;
      ConsumeThenDecode(s.d, input, cs[0].cap, later);
      BeforeBoth(s.used, s.out, r.used, r.out, Decode(r.d, input[r.used..] + later));
      CallsRefineDecode(Session(r.d, input[r.used..], s.used + r.used, s.out + r.out), cs[1..], whole);
    }
  }

  /**
   * Chunked decoding undoes chunked encoding under any split of the wire bytes across calls and any
   * output capacities: once the calls have used up the wire, the output is the body and the state Done.
   */
  lemma AnySplitDecodes(cs: seq<Call>, chunks: seq<Chunk>, zeros: seq<u8>, ext: seq<u8>, ts: seq<seq<u8>>)
    requires (forall c | c in chunks :: ChunkOk(c)) && (forall t | t in ts :: TrailerOk(t))
    requires SizeOk(zeros, 0) && ExtensionOk(ext)
    requires Arrivals(cs) == Encode(chunks, zeros, ext, ts)
    ensures var t := Calls(Session(INIT, [], 0, []), cs);
      t.held == [] ==> t.d.phase.Done? && t.out == Body(chunks)
  {
    var wire := Encode(chunks, zeros, ext, ts);
    DecodeUndoesEncode(chunks, zeros, ext, ts, []);
    assert wire + [] == wire && [] + wire == wire;
    EmptyBefore(Decode(INIT, wire));
    CallsRefineDecode(Session(INIT, [], 0, []), cs, Decode(INIT, wire));
  }

  // ---- The code ---------------------------------------------------------------------------

  /** A bulk copy of `k` data bytes is `k` single steps. */
  lemma {:induction false} BulkIsSteps(d: State, s: seq<u8>, cap: nat, k: nat)
    requires Valid(d) && d.phase.ReadData? && 1 <= k <= |s| && k <= cap && k <= d.remaining
    ensures Valid(Advanced(d, k))
    ensures Consume(d, s, cap) == Before(k, s[..k], Consume(Advanced(d, k), s[k..], cap - k))
    decreases k
  {
    hide Consume;
    DataIsAStep(d, s, cap);
    if k == 1 {
      assert s[..1] == [s[0]];
    } else {
      var d1 := Advanced(d, 1);
      assert Advanced(d1, k - 1) == Advanced(d, k);
      BulkIsSteps(d1, s[1..], cap - 1, k - 1);
      assert s[1..][k - 1..] == s[k..] && [s[0]] + s[1..][..k - 1] == s[..k];
      BeforeBoth(1, [s[0]], k - 1, s[1..][..k - 1], Consume(Advanced(d, k), s[k..], cap - k));
    }
  }

  lemma DataIsAStep(d: State, s: seq<u8>, cap: nat)
    requires Valid(d) && d.phase.ReadData? && s != [] && cap >= 1
    ensures Valid(Advanced(d, 1))
    ensures Consume(d, s, cap) == Before(1, [s[0]], Consume(Advanced(d, 1), s[1..], cap - 1))
  {
    assert Step(d, s[0]) == Advanced(d, 1);
  }

  lemma ConsumeStops(d: State, s: seq<u8>, cap: nat)
    requires Valid(d) && (s == [] || (d.phase.ReadData? && cap == 0))
    ensures Consume(d, s, cap) == Run(d, 0, [])
  {
  }

  lemma ControlIsAStep(d: State, s: seq<u8>, cap: nat)
    requires Valid(d) && !d.phase.ReadData? && s != []
    ensures Consume(d, s, cap) ==
      if Accepts(d, s[0]) then Before(1, [], Consume(Step(d, s[0]), s[1..], cap)) else Run(Step(d, s[0]), 0, [])
  {
  }

  class DechunkerT {
    var phase: Phase
    var chunkRemaining: u32
    var inExt: bool
    const sizeBuf: array<u8>
    var sizeLen: nat
    var trailerLineLen: u32

    predicate Ready()
      reads this, sizeBuf
    {
      sizeBuf.Length == SIZE_DIGITS + 1 && sizeLen <= SIZE_DIGITS && Valid(View())
    }

    function View(): State
      requires sizeLen <= sizeBuf.Length
      reads this, sizeBuf
    {
      State(phase, chunkRemaining, inExt, sizeBuf[..sizeLen], trailerLineLen)
    }

    constructor ()
      ensures Ready() && fresh(sizeBuf) && View() == INIT
    {
      phase, chunkRemaining, inExt, sizeLen, trailerLineLen := ReadSize, 0, false, 0, 0;
      sizeBuf := new u8[SIZE_DIGITS + 1](_ => 0);
    }

    /** One byte outside chunk data: false when the machine stops in front of it. */
    method ControlByte(c: u8) returns (taken: bool)
      requires Ready() && !phase.ReadData?
      modifies this, sizeBuf
      ensures Ready() && View() == Step(old(View()), c) && taken == Accepts(old(View()), c)
    {
      taken := true;
      match phase {
        case ReadSize =>
          if c == CR {
          } else if c == LF {
            if sizeLen == 0 {
              phase := Error;
              return false;
            }
            chunkRemaining := ChunkSize(sizeBuf[..sizeLen]);
            sizeLen := 0;
            inExt := false;
            if chunkRemaining == 0 {
              phase := ReadTrailers;
              trailerLineLen := 0;
            } else {
              phase := ReadData;
            }
          } else if c == SEMICOLON {
            inExt := true;
          } else if !inExt {
            if IsHex(c) {
              if sizeLen < SIZE_DIGITS {
                sizeBuf[sizeLen] := c;
                sizeLen := sizeLen + 1;
                assert sizeBuf[..sizeLen] == old(sizeBuf[..sizeLen]) + [c];
              } else {
                phase := Error;
                return false;
              }
            } else if !IsBlank(c) {
              phase := Error;
              return false;
            }
          }
        case ReadDataCrlf =>
          if c == LF {
            phase := ReadSize;
            sizeLen := 0;
            inExt := false;
          } else if c != CR {
            phase := Error;
            return false;
          }
        case ReadTrailers =>
          if c == LF {
            if trailerLineLen == 0 {
              phase := Done;
            } else {
              trailerLineLen := 0;
            }
          } else if c != CR {
            trailerLineLen := (trailerLineLen + 1) % 0x1_0000_0000;
          }
        case _ =>
          taken := false;
      }
    }

    /** The memcpy branch: as much chunk data as the input, the chunk and the output allow. */
    method CopyData(rest: seq<u8>, out: array<u8>, produced: nat, outCap: nat) returns (canTake: nat)
      requires Ready() && phase.ReadData? && produced <= outCap <= out.Length && out != sizeBuf
      modifies this, out
      ensures canTake == Min(Min(|rest|, old(chunkRemaining)), outCap - produced)
      ensures Ready() && View() == Advanced(old(View()), canTake)
      ensures out[..produced + canTake] == old(out[..produced]) + rest[..canTake]
    {
      canTake := Min(Min(|rest|, chunkRemaining), outCap - produced);
      CopyInto(rest[..canTake], out, produced);
      chunkRemaining := chunkRemaining - canTake;
      if chunkRemaining == 0 {
        phase := ReadDataCrlf;
      }
    }

    /** dechunker_consume: the bulk form computes exactly the byte-at-a-time run. */
    method ConsumeInto(input: seq<u8>, out: array<u8>, outCap: nat) returns (used: nat, produced: nat)
      requires Ready() && 1 <= outCap <= out.Length && out != sizeBuf
      modifies this, sizeBuf, out
      ensures Ready() && produced <= outCap
      ensures Run(View(), used, out[..produced]) == Consume(old(View()), input, outCap)
    {
      hide Consume, Step, Accepts, Advanced, Before;
      produced := 0;
      var i := 0;
      ghost var whole := Consume(View(), input, outCap);
      assert input[0..] == input && out[..0] == [];
      EmptyBefore(whole);
      while i < |input|
        invariant 0 <= i <= |input| && produced <= outCap && Ready()
        invariant whole == Before(i, out[..produced], Consume(View(), input[i..], outCap - produced))
        decreases |input| - i
      {
        ghost var d, o := View(), out[..produced];
        var rest := input[i..];
        if phase.ReadData? {
          var canTake := CopyData(rest, out, produced, outCap);
          if canTake == 0 {
            ConsumeStops(d, rest, outCap - produced);
            assert Advanced(d, 0) == d by { AdvanceNone(d); }
            assert o + rest[..0] == o;
            BeforeEmpty(i, o, d);
            return i, produced;
          }
          BulkIsSteps(d, rest, outCap - produced, canTake);
          produced := produced + canTake;
          i := i + canTake;
          assert rest[canTake..] == input[i..];
          BeforeBoth(i - canTake, o, canTake, rest[..canTake], Consume(View(), input[i..], outCap - produced));
        } else {
          var taken := ControlByte(input[i]);
          assert rest[0] == input[i] && rest[1..] == input[i + 1..];
          ControlIsAStep(d, rest, outCap - produced);
          if !taken {
            BeforeEmpty(i, o, View());
            return i, produced;
          }
          BeforeBoth(i, o, 1, [], Consume(View(), rest[1..], outCap - produced));
          assert o + [] == o;
          i := i + 1;
        }
      }
      used := i;
      ConsumeStops(View(), input[i..], outCap - produced);
      BeforeEmpty(i, out[..produced], View());
    }
  }

  lemma AdvanceNone(d: State)
    requires Valid(d) && d.phase.ReadData?
    ensures Advanced(d, 0) == d
  {
  }

  function Min(a: nat, b: nat): nat { if a <= b then a else b }

  /** memcpy(out + at, src, |src|). */
  method CopyInto(src: seq<u8>, out: array<u8>, at: nat)
    requires at + |src| <= out.Length
    modifies out
    ensures out[..] == old(out[..at]) + src + old(out[at + |src|..])
  {
    for k := 0 to |src|
      invariant out[..at + k] == old(out[..at]) + src[..k]
      invariant out[at + k..] == old(out[at + k..])
    {
      out[at + k] := src[k];
      assert out[..at + k + 1] == out[..at + k] + [src[k]];
    }
    assert out[..] == out[..at + |src|] + out[at + |src|..];
  }

  function Concat(blocks: seq<seq<u8>>): seq<u8> {
    if blocks == [] then [] else blocks[0] + Concat(blocks[1..])
  }

  /**
   * The chunked branch of multipart_upload_handle. `blocks` is what the socket delivers before it
   * closes; `body` is what the multipart parser is fed.
   */
  method ReceiveChunked(blocks: seq<seq<u8>>, rxSize: nat) returns (ok: bool, body: seq<u8>)
    requires rxSize >= 1 && forall b | b in blocks :: b != []
    ensures var r := Decode(INIT, Concat(blocks));
      ok == r.d.phase.Done? && (ok ==> body == r.out)
  {
    var dc := new DechunkerT();
    var rx := new u8[rxSize](_ => 0);
    body := [];
    var next := 0;
    ghost var whole := Decode(INIT, Concat(blocks));
    ghost var seen := 0;
    assert blocks[0..] == blocks;
    while !dc.phase.Done?
      invariant 0 <= next <= |blocks| && dc.Ready() && fresh(dc) && fresh(dc.sizeBuf) && fresh(rx) && rx != dc.sizeBuf
      invariant rx.Length == rxSize && !dc.phase.Error?
      invariant whole == Before(seen, body, Decode(dc.View(), Concat(blocks[next..])))
      decreases |blocks| - next
    {
      if next == |blocks| {
        return false, body;   // the receive failed
      }
      var block := blocks[next];
      next := next + 1;
      var failed;
      failed, body, seen := DecodeBlock(dc, rx, block, body, seen, Concat(blocks[next..]), whole);
      if failed {
        return false, body;
      }
    }
    ok := true;
  }

  lemma StoppedForGood(n: nat, o: seq<u8>, d: State, s: seq<u8>)
    requires Valid(d) && (d.phase.Done? || d.phase.Error?)
    ensures Before(n, o, Decode(d, s)) == Run(d, n, o)
  {
  }

  lemma NothingTaken(d: State, s: seq<u8>, cap: nat)
    requires Valid(d) && s != [] && cap >= 1
    requires var r := Consume(d, s, cap); r.used == 0 && !r.d.phase.Error?
    ensures Consume(d, s, cap).d.phase.Done?
  {
  }

  /** The inner loop: one received block, decoded in as many calls as the output buffer needs. */
  method DecodeBlock(dc: DechunkerT, rx: array<u8>, block: seq<u8>, fed: seq<u8>, ghost seen: nat,
                     ghost later: seq<u8>, ghost whole: Run)
    returns (failed: bool, body: seq<u8>, ghost seen': nat)
    requires dc.Ready() && rx != dc.sizeBuf && rx.Length >= 1 && !dc.phase.Error?
    requires whole == Before(seen, fed, Decode(dc.View(), block + later))
    modifies dc, dc.sizeBuf, rx
    ensures dc.Ready()
    ensures failed <==> dc.phase.Error?
    ensures failed ==> whole.d.phase.Error?
    ensures !failed ==> whole == Before(seen', body, Decode(dc.View(), later))
  {
    hide Consume, Decode, Step, Accepts, Before;
    body, seen' := fed, seen;
    failed := false;
    var inUsed := 0;
    assert block[0..] == block;
    while inUsed < |block|
      invariant 0 <= inUsed <= |block| && dc.Ready() && !dc.phase.Error?
      invariant whole == Before(seen', body, Decode(dc.View(), block[inUsed..] + later))
      decreases |block| - inUsed
    {
      ghost var d, rest := dc.View(), block[inUsed..];
      var used, outLen := dc.ConsumeInto(block[inUsed..], rx, rx.Length);
      ConsumeThenDecode(d, rest, rx.Length, later);
      assert rest[used..] == block[inUsed + used..];
      BeforeBoth(seen', body, used, rx[..outLen], Decode(dc.View(), block[inUsed + used..] + later));
      seen' := seen' + used;
      if dc.phase.Error? {
        StoppedForGood(seen', body + rx[..outLen], dc.View(), block[inUsed + used..] + later);
        failed := true;
        return;
      }
      body := body + rx[..outLen];
      if used == 0 {
        // Only a finished decoder takes nothing: what is left is not part of the body.
        NothingTaken(d, rest, rx.Length);
        StoppedForGood(seen', body, dc.View(), block[inUsed + used..] + later);
        StoppedForGood(seen', body, dc.View(), later);
        return;
      }
      inUsed := inUsed + used;
    }
    assert block[inUsed..] + later == later;
  }
}
