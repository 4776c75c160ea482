/**
 * The CRC-32 that an SD upload reports, from main/config_server.c: the bitwise step, its algebra,
 * and the upload's part callbacks.
 */
module Crc32 {
  const ONES: bv32 := 0xFFFF_FFFF

  function Xor(a: bv32, b: bv32): bv32 { a ^ b }
  function Wide(b: bv8): bv32 { b as bv32 }
  function Down(c: bv32): bv32 { c >> 8 }
  function Up(c: bv32): bv32 { c << 8 }
  function Low(c: bv32): bv32 { c & 0xFF }

  /** One bit: shift right, and take the polynomial in if a one fell out. */
  function Bit(c: bv32): bv32 { (c >> 1) ^ (0xEDB8_8320 & (0 - (c & 1))) }

  function Bits(c: bv32, k: nat): bv32 { if k == 0 then c else Bit(Bits(c, k - 1)) }

  /** One byte: eight bits. */
  function Byte(c: bv32): bv32 { Bits(c, 8) }

  /** The state after a byte string, started from `c`; no final inversion. */
  function Fold(c: bv32, s: seq<bv8>): bv32
    decreases |s|
  {
    if s == [] then c else Fold(Byte(Xor(c, Wide(s[0]))), s[1..])
  }

  /** nc_crc32_step */
  method Crc32Step(crc: bv32, data: seq<bv8>) returns (r: bv32)
    ensures r == Fold(crc, data)
  {
    r := crc;
    for i := 0 to |data|
      invariant Fold(r, data[i..]) == Fold(crc, data)
    {
      assert data[i..][1..] == data[i + 1..];
      r := EightBits(Xor(r, Wide(data[i])));
    }
    assert data[|data|..] == [];
  }

  /** The inner loop. */
  method EightBits(c: bv32) returns (r: bv32)
    ensures r == Byte(c)
  {
    r := c;
    for k := 0 to 8
      invariant r == Bits(c, k)
    {
      r := Bit(r);
    }
  }

  // ---- Exclusive or ----------------------------------------------------------------------

  lemma XorCommutes(a: bv32, b: bv32)
    ensures Xor(a, b) == Xor(b, a)
  {
  }

  lemma XorAssociates(a: bv32, b: bv32, c: bv32)
    ensures Xor(Xor(a, b), c) == Xor(a, Xor(b, c))
  {
  }

  lemma XorSelf(a: bv32)
    ensures Xor(a, a) == 0
  {
  }

  lemma XorZero(a: bv32)
    ensures Xor(a, 0) == a && Xor(0, a) == a
  {
  }

  lemma XorCancels(a: bv32, b: bv32, w: bv32)
    requires Xor(a, w) == Xor(b, w)
    ensures a == b
  {
    hide Xor;
    XorAssociates(a, w, w);
    XorAssociates(b, w, w);
    XorSelf(w);
    XorZero(a);
    XorZero(b);
  }

  // ---- The definition of section 8 of RFC 1952 -------------------------------------------

  function TableStep(c: bv32): bv32 { if c & 1 != 0 then 0xEDB8_8320 ^ (c >> 1) else c >> 1 }

  function TableSteps(c: bv32, k: nat): bv32 { if k == 0 then c else TableStep(TableSteps(c, k - 1)) }

  /** The remainder of one byte. */
  function Table(n: bv32): bv32 { TableSteps(n, 8) }

  function TableUpdate(c: bv32, s: seq<bv8>): bv32
    decreases |s|
  {
    if s == [] then c else TableUpdate(Xor(Table(Low(Xor(c, Wide(s[0])))), Down(c)), s[1..])
  }

  /** The CRC of a byte string: started from ones, inverted at the end. */
  function Crc(s: seq<bv8>): bv32 { Xor(TableUpdate(ONES, s), ONES) }

  lemma StepAgrees(c: bv32)
    ensures Bit(c) == TableStep(c)
  {
    LowBit(c);
    assert 0xEDB8_8320 & (0 - 1) == 0xEDB8_8320 as bv32;
  }

  lemma {:induction false} StepsAgree(c: bv32, k: nat)
    ensures Bits(c, k) == TableSteps(c, k)
  {
    hide Bit, TableStep;
    if k > 0 {
      StepsAgree(c, k - 1);
      StepAgrees(Bits(c, k - 1));
    }
  }

  function Half(c: bv32): bv32 { c >> 1 }
  predicate Odd(c: bv32) { c & 1 == 1 }

  lemma BitHalves(c: bv32)
    ensures Bit(c) == if Odd(c) then Xor(0xEDB8_8320, Half(c)) else Half(c)
  {
    hide Bit;
    StepAgrees(c);
    LowBit(c);
  }

  lemma LowBit(c: bv32)
    ensures c & 1 == 0 || c & 1 == 1
  {
  }

  lemma HalfSplits(a: bv32, b: bv32)
    ensures Half(Xor(a, b)) == Xor(Half(a), Half(b))
  {
  }

  lemma OddSplits(a: bv32, b: bv32)
    ensures Odd(Xor(a, b)) == (Odd(a) != Odd(b))
  {
  }

  lemma XorMoves(p: bv32, x: bv32, y: bv32)
    ensures Xor(Xor(p, x), y) == Xor(p, Xor(x, y))
    ensures Xor(x, Xor(p, y)) == Xor(p, Xor(x, y))
    ensures Xor(Xor(p, x), Xor(p, y)) == Xor(x, y)
  {
    hide Xor;
    XorAssociates(p, x, y);
    XorAssociates(x, p, y);
    XorCommutes(x, p);
    XorAssociates(x, p, Xor(p, y));
    XorAssociates(p, p, y);
    XorSelf(p);
    XorZero(y);
  }

  lemma BitIsLinear(a: bv32, b: bv32)
    ensures Bit(Xor(a, b)) == Xor(Bit(a), Bit(b))
  {
    hide Bit, Half, Odd, Xor;
    BitHalves(a);
    BitHalves(b);
    BitHalves(Xor(a, b));
    HalfSplits(a, b);
    OddSplits(a, b);
    XorMoves(0xEDB8_8320, Half(a), Half(b));
  }

  lemma {:induction false} BitsAreLinear(a: bv32, b: bv32, k: nat)
    ensures Bits(Xor(a, b), k) == Xor(Bits(a, k), Bits(b, k))
  {
    hide Bit, Xor;
    if k > 0 {
      BitsAreLinear(a, b, k - 1);
      BitIsLinear(Bits(a, k - 1), Bits(b, k - 1));
    }
  }

  lemma UpIsEven(v: bv32)
    ensures var u := Up(v);
      && !Odd(u) && !Odd(Half(u)) && !Odd(Half(Half(u))) && !Odd(Half(Half(Half(u))))
      && !Odd(Half(Half(Half(Half(u))))) && !Odd(Half(Half(Half(Half(Half(u))))))
      && !Odd(Half(Half(Half(Half(Half(Half(u))))))) && !Odd(Half(Half(Half(Half(Half(Half(Half(u))))))))
  {
  }

  lemma EightHalvesAreDown(c: bv32)
    ensures Half(Half(Half(Half(Half(Half(Half(Half(c)))))))) == Down(c)
  {
  }

  /** Eight zero bits at the bottom are shifted out, and nothing else happens. */
  lemma ByteOfHigh(v: bv32)
    ensures Byte(Up(v)) == Down(Up(v))
  {
    hide Bit, Up, Down, Half, Odd;
    var u0 := Up(v);
    UpIsEven(v);
    EightHalvesAreDown(u0);
    var u1 := Half(u0);
    var u2 := Half(u1);
    var u3 := Half(u2);
    var u4 := Half(u3);
    var u5 := Half(u4);
    var u6 := Half(u5);
    var u7 := Half(u6);
    BitHalves(u0);
    BitHalves(u1);
    BitHalves(u2);
    BitHalves(u3);
    BitHalves(u4);
    BitHalves(u5);
    BitHalves(u6);
    BitHalves(u7);
    assert Bits(u0, 1) == u1;
    assert Bits(u0, 2) == u2;
    assert Bits(u0, 3) == u3;
    assert Bits(u0, 4) == u4;
    assert Bits(u0, 5) == u5;
    assert Bits(u0, 6) == u6;
    assert Bits(u0, 7) == u7;
  }

  lemma HighAndLow(c: bv32)
    ensures c == Xor(Up(Down(c)), Low(c))
  {
  }

  lemma HighIsKept(c: bv32, b: bv8)
    ensures Down(Xor(c, Wide(b))) == Down(c)
  {
  }

  lemma DownAndUp(c: bv32)
    ensures Down(Up(Down(c))) == Down(c)
  {
  }

  lemma ByteIsTableEntry(c: bv32, b: bv8)
    ensures Byte(Xor(c, Wide(b))) == Xor(Table(Low(Xor(c, Wide(b)))), Down(c))
  {
    hide Bits, TableSteps, Xor, Wide, Low, Down, Up;
    var x := Xor(c, Wide(b));
    HighAndLow(x);
    HighIsKept(c, b);
    DownAndUp(c);
    BitsAreLinear(Up(Down(x)), Low(x), 8);
    ByteOfHigh(Down(x));
    StepsAgree(Low(x), 8);
    XorCommutes(Down(c), Table(Low(x)));
  }

  /** The bitwise step is the table step. */
  lemma {:induction false} FoldIsTableUpdate(c: bv32, s: seq<bv8>)
    ensures Fold(c, s) == TableUpdate(c, s)
    decreases |s|
  {
    hide Byte, Table, Xor, Wide, Low, Down;
    if s != [] {
      ByteIsTableEntry(c, s[0]);
      FoldIsTableUpdate(Byte(Xor(c, Wide(s[0]))), s[1..]);
    }
  }

  // ---- The bytes alone decide ------------------------------------------------------------

  lemma {:induction false} FoldAppends(c: bv32, a: seq<bv8>, b: seq<bv8>)
    ensures Fold(c, a + b) == Fold(Fold(c, a), b)
    decreases |a|
  {
    hide Byte, Xor, Wide;
    if a == [] {
      assert a + b == b;
    } else {
      assert (a + b)[1..] == a[1..] + b;
      FoldAppends(Byte(Xor(c, Wide(a[0]))), a[1..], b);
    }
  }

  // ---- Changes it must notice ------------------------------------------------------------

  /** The bit step can be undone: the top bit tells whether a one fell out. */
  function Unbit(c: bv32): bv32 { if c >> 31 == 1 then ((c ^ 0xEDB8_8320) << 1) | 1 else c << 1 }

  lemma BitIsUndone(c: bv32)
    ensures Unbit(Bit(c)) == c
  {
  }

  lemma {:induction false} BitsAreInjective(a: bv32, b: bv32, k: nat)
    requires Bits(a, k) == Bits(b, k)
    ensures a == b
  {
    hide Bit, Unbit;
    if k > 0 {
      BitIsUndone(Bits(a, k - 1));
      BitIsUndone(Bits(b, k - 1));
      BitsAreInjective(a, b, k - 1);
    }
  }

  /** Different states stay different under the same bytes. */
  lemma {:induction false} FoldIsInjective(a: bv32, b: bv32, s: seq<bv8>)
    requires Fold(a, s) == Fold(b, s)
    ensures a == b
    decreases |s|
  {
    hide Bits, Xor, Wide;
    if s != [] {
      var w := Wide(s[0]);
      FoldIsInjective(Byte(Xor(a, w)), Byte(Xor(b, w)), s[1..]);
      BitsAreInjective(Xor(a, w), Xor(b, w), 8);
      XorCancels(a, b, w);
    }
  }

  /** Up to four bytes as one little-endian word. */
  function Word(s: seq<bv8>): bv32 { if s == [] then 0 else Xor(Wide(s[0]), Up(Word(s[1..]))) }

  predicate Fits(v: bv32, bytes: nat)
    requires bytes <= 4
  {
    match bytes
    case 0 => v == 0
    case 1 => v >> 8 == 0
    case 2 => v >> 16 == 0
    case 3 => v >> 24 == 0
    case _ => true
  }

  lemma {:induction false} WordFits(s: seq<bv8>)
    requires |s| <= 4
    ensures Fits(Word(s), |s|)
  {
    hide Fits, Xor, Up, Wide;
    if s == [] {
      ZeroFits();
    } else {
      WordFits(s[1..]);
      OneByteMoreFits(s[0], Word(s[1..]), |s| - 1);
    }
  }

  lemma ZeroFits()
    ensures Fits(0, 0)
  {
  }

  lemma OneByteMoreFits(b: bv8, v: bv32, n: nat)
    requires n < 4 && Fits(v, n)
    ensures Fits(Xor(Wide(b), Up(v)), n + 1)
  {
    match n {
      case 0 => assert (Wide(b) ^ (0 << 8)) >> 8 == 0;
      case 1 => OneByteMore1(b, v);
      case 2 => OneByteMore2(b, v);
      case 3 =>
    }
  }

  lemma OneByteMore1(b: bv8, v: bv32)
    requires v >> 8 == 0
    ensures Xor(Wide(b), Up(v)) >> 16 == 0
  {
  }

  lemma OneByteMore2(b: bv8, v: bv32)
    requires v >> 16 == 0
    ensures Xor(Wide(b), Up(v)) >> 24 == 0
  {
  }

  lemma FitsInThree(v: bv32, n: nat)
    requires n <= 3 && Fits(v, n)
    ensures Fits(v, 3)
  {
    match n {
      case 0 =>
      case 1 => assert v >> 8 == 0 ==> v >> 24 == 0;
      case 2 => assert v >> 16 == 0 ==> v >> 24 == 0;
      case 3 =>
    }
  }

  /** A byte step that leaves at most 24 bits started from those bits, moved up. */
  lemma ByteIsMovedBack(x: bv32)
    requires Fits(Byte(x), 3)
    ensures x == Up(Byte(x))
  {
    hide Bits, Up;
    var v := Byte(x);
    UpAndDown(v);
    ByteOfHigh(v);
    BitsAreInjective(x, Up(v), 8);
  }

  lemma UpAndDown(v: bv32)
    requires Fits(v, 3)
    ensures Down(Up(v)) == v
  {
  }

  /** Two windows of at most four bytes lead to one state only from states that differ as the windows do. */
  lemma {:induction false} WindowsMeet(a: bv32, b: bv32, s: seq<bv8>, t: seq<bv8>)
    requires |s| == |t| <= 4 && Fold(a, s) == Fold(b, t)
    ensures Xor(a, b) == Xor(Word(s), Word(t))
    decreases |s|
  {
    hide Bits, Xor, Up, Wide, Fits;
    if s == [] {
      XorSelf(a);
      XorSelf(0);
    } else {
      var x, y := Xor(a, Wide(s[0])), Xor(b, Wide(t[0]));
      var p, q := Word(s[1..]), Word(t[1..]);
      WindowsMeet(Byte(x), Byte(y), s[1..], t[1..]);
      BitsAreLinear(x, y, 8);
      WordFits(s[1..]);
      WordFits(t[1..]);
      FitsInThree(p, |s| - 1);
      FitsInThree(q, |s| - 1);
      XorFits(p, q);
      ByteIsMovedBack(Xor(x, y));
      Rearranged(a, b, Wide(s[0]), Wide(t[0]), p, q);
    }
  }

  lemma XorFits(p: bv32, q: bv32)
    requires Fits(p, 3) && Fits(q, 3)
    ensures Fits(Xor(p, q), 3)
  {
  }

  lemma UpSplits(p: bv32, q: bv32)
    ensures Up(Xor(p, q)) == Xor(Up(p), Up(q))
  {
  }

  lemma Rearranged(a: bv32, b: bv32, s: bv32, t: bv32, p: bv32, q: bv32)
    requires Xor(Xor(a, s), Xor(b, t)) == Up(Xor(p, q))
    ensures Xor(a, b) == Xor(Xor(s, Up(p)), Xor(t, Up(q)))
  {
    hide Up, Xor;
    UpSplits(p, q);
    Shuffled(a, b, s, t, Up(p), Up(q));
  }

  lemma Shuffled(a: bv32, b: bv32, s: bv32, t: bv32, p: bv32, q: bv32)
    requires Xor(Xor(a, s), Xor(b, t)) == Xor(p, q)
    ensures Xor(a, b) == Xor(Xor(s, p), Xor(t, q))
  {
    hide Xor;
    Pairs(a, s, b, t);
    Pairs(s, p, t, q);
    var m := Xor(s, t);
    XorMoves(Xor(a, b), m, m);
    XorSelf(m);
    XorZero(Xor(a, b));
  }

  lemma Pairs(a: bv32, s: bv32, b: bv32, t: bv32)
    ensures Xor(Xor(a, s), Xor(b, t)) == Xor(Xor(a, b), Xor(s, t))
  {
    hide Xor;
    XorAssociates(a, s, Xor(b, t));
    XorMoves(b, s, t);
    XorAssociates(a, b, Xor(s, t));
  }

  lemma {:induction false} WordNamesTheBytes(s: seq<bv8>, t: seq<bv8>)
    requires |s| == |t| <= 4 && Word(s) == Word(t)
    ensures s == t
  {
    hide Xor, Up, Wide, Fits, Down;
    if s != [] {
      WordFits(s[1..]);
      WordFits(t[1..]);
      FitsInThree(Word(s[1..]), |s| - 1);
      FitsInThree(Word(t[1..]), |s| - 1);
      ApartDown(s[0], Word(s[1..]));
      ApartDown(t[0], Word(t[1..]));
      ApartLow(s[0], t[0], Word(s[1..]), Word(t[1..]));
      WordNamesTheBytes(s[1..], t[1..]);
      assert s == [s[0]] + s[1..] && t == [t[0]] + t[1..];
    }
  }

  lemma ApartDown(b: bv8, v: bv32)
    requires Fits(v, 3)
    ensures Down(Xor(Wide(b), Up(v))) == v
  {
  }

  lemma ApartLow(s: bv8, t: bv8, p: bv32, q: bv32)
    requires Xor(Wide(s), Up(p)) == Xor(Wide(t), Up(q))
    ensures s == t
  {
    hide Wide, Up;
    LowByte(s, p);
    LowByte(t, q);
    WideIsInjective(s, t);
  }

  lemma LowByte(b: bv8, v: bv32)
    ensures Low(Xor(Wide(b), Up(v))) == Wide(b)
  {
  }

  lemma WideIsInjective(s: bv8, t: bv8)
    requires Wide(s) == Wide(t)
    ensures s == t
  {
  }

  /**
   * Replace any window of one to four consecutive bytes of a file of any length by other bytes: the
   * CRC of section 8 of RFC 1952 changes.
   */
  lemma SmallWindowsShow(before: seq<bv8>, s: seq<bv8>, t: seq<bv8>, after: seq<bv8>)
    requires |s| == |t| <= 4 && s != t
    ensures Crc(before + s + after) != Crc(before + t + after)
  {
    hide Fold, TableUpdate, Xor, Word;
    var f, g := before + s + after, before + t + after;
    if Crc(f) == Crc(g) {
      XorCancels(TableUpdate(ONES, f), TableUpdate(ONES, g), ONES);
      FoldIsTableUpdate(ONES, f);
      FoldIsTableUpdate(ONES, g);
      FoldAppends(ONES, before + s, after);
      FoldAppends(ONES, before + t, after);
      FoldAppends(ONES, before, s);
      FoldAppends(ONES, before, t);
      var c := Fold(ONES, before);
      FoldIsInjective(Fold(c, s), Fold(c, t), after);
      WindowsMeet(c, c, s, t);
      XorSelf(c);
      XorSelf(Word(t));
      XorCancels(Word(s), Word(t), Word(t));
      WordNamesTheBytes(s, t);
    }
  }

  // ---- The upload ------------------------------------------------------------------------

  const MAX_SD_UPLOAD_SIZE := 4 * 1024 * 1024

  /** One upload: the part callbacks, and what they have written to the temporary file. */
  class SdUpload {
    var isOpen: bool
    var started: bool
    var tooBig: bool
    var failed: bool
    var totalSize: nat
    var crc: bv32
    /** The temporary file's bytes, as long as no write failed. */
    var file: seq<bv8>

    /** Size and CRC are those of the bytes written. */
    predicate Valid()
      reads this
    {
      && (isOpen ==> started)
      && (tooBig ==> failed)
      && totalSize <= 4_194_304
      && totalSize == |file| && crc == Fold(ONES, file)
    }

    constructor ()
      ensures Valid() && !started && !isOpen && !failed && file == []
    {
      isOpen, started, tooBig, failed := false, false, false, false;
      totalSize, crc, file := 0, ONES, [];
    }

    /** Only one file part is taken; `canOpen` is fopen's answer. */
    method PartBegin(hasFilename: bool, canOpen: bool) returns (accept: bool)
      requires Valid()
      modifies this
      ensures Valid() && file == old(file) && tooBig == old(tooBig)
      ensures accept == (!old(started) && hasFilename && canOpen)
      ensures accept ==> isOpen && started && failed == old(failed)
      ensures !accept ==> isOpen == old(isOpen) && started == old(started)
      ensures failed == (old(failed) || (!old(started) && hasFilename && !canOpen))
    {
      if started {
        return false;
      }
      if !hasFilename {
        return false;
      }
      if !canOpen {
        failed := true;
        return false;
      }
      isOpen, started := true, true;
      return true;
    }

    /** A run of bytes; `written` is how many of them fwrite took. */
    method PartData(data: seq<bv8>, written: nat) returns (ok: bool)
      requires Valid()
      modifies this
      ensures Valid() && isOpen == old(isOpen) && started == old(started)
      ensures ok == (isOpen && (data == [] || (old(totalSize) + |data| <= 4_194_304 && written == |data|)))
      ensures file == if ok then old(file) + data else old(file)
      ensures failed == (old(failed) || (isOpen && !ok))
      ensures tooBig == (old(tooBig) || (isOpen && old(totalSize) + |data| > 4_194_304 && data != []))
    {
      if !isOpen {
        return false;
      }
      if |data| == 0 {
        assert file + data == file;
        return true;
      }
      if totalSize + |data| > MAX_SD_UPLOAD_SIZE {
        tooBig, failed := true, true;
        return false;
      }
      if written != |data| {
        failed := true;
        return false;
      }
      FoldAppends(ONES, file, data);
      crc := Crc32Step(crc, data);
      totalSize := totalSize + |data|;
      file := file + data;
      return true;
    }

    method PartEnd()
      requires Valid()
      modifies this`isOpen
      ensures Valid() && !isOpen
    {
      isOpen := false;
    }

    /** What the handler reports after a successful upload. */
    method Report() returns (size: nat, reported: bv32)
      requires Valid()
      ensures size == |file| && reported == Crc(file)
    {
      FoldIsTableUpdate(ONES, file);
      size := totalSize;
      reported := Xor(crc, ONES);
    }
  }

  function Joined(chunks: seq<seq<bv8>>): seq<bv8> {
    if chunks == [] then [] else Joined(chunks[..|chunks| - 1]) + chunks[|chunks| - 1]
  }

  /**
   * A file part delivered in any pieces: the upload succeeds exactly when it fits, and what is stored
   * and reported depends on the bytes alone, not on how they were split.
   */
  method ReceivePart(chunks: seq<seq<bv8>>) returns (ok: bool, size: nat, reported: bv32)
    ensures ok <==> |Joined(chunks)| <= 4_194_304
    ensures ok ==> size == |Joined(chunks)| && reported == Crc(Joined(chunks))
  {
    hide Joined, Fold, Crc;
    NothingJoined(chunks);
    var upload := new SdUpload();
    ok := upload.PartBegin(true, true);
    size, reported := 0, 0;
    for i := 0 to |chunks|
      invariant upload.Valid() && upload.isOpen && fresh(upload)
      invariant upload.file == Joined(chunks[..i])
    {
      JoinedGrows(chunks, i);
      ok := upload.PartData(chunks[i], |chunks[i]|);
      if !ok {
        return;
      }
    }
    assert chunks[..|chunks|] == chunks;
    upload.PartEnd();
    ok := true;
    size, reported := upload.Report();
  }

  lemma NothingJoined(chunks: seq<seq<bv8>>)
    ensures Joined(chunks[..0]) == []
  {
  }

  lemma {:induction false} JoinedGrows(chunks: seq<seq<bv8>>, i: nat)
    requires i < |chunks|
    ensures Joined(chunks[..i + 1]) == Joined(chunks[..i]) + chunks[i]
    ensures |Joined(chunks[..i + 1])| <= |Joined(chunks)|
    decreases |chunks| - i
  {
    assert chunks[..i + 1][..i] == chunks[..i];
    if i + 1 == |chunks| {
      assert chunks[..i + 1] == chunks;
    } else {
      JoinedGrows(chunks, i + 1);
    }
  }
}
