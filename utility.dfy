/**
 * Byte-level helpers of the stimulator's wire protocol: the frame checksum,
 * writing a frame with its checksum byte filled in, the split of a 16-bit
 * field into two bytes, and the "0xHH" debug formatter.
 *
 * Every outbound frame is laid out as
 *   [dest 0x04][src 0x80][message type][payload length][payload ...][checksum]
 * and the checksum byte is computed over every byte before it.
 */
module Utility {

  /** An `unsigned char`. */
  type byte = x: int | 0 <= x < 0x100

  /** An `unsigned int` (32 bits). */
  type uint32 = x: int | 0 <= x < 0x1_0000_0000

  /** A C `int` (32 bits, two's complement). */
  type int32 = x: int | -0x8000_0000 <= x < 0x8000_0000

  datatype Option<T> = None | Some(value: T)

  /** A line sent to the logging sink. */
  datatype LogEntry = Info(text: string) | Error(text: string)

  const DEST_ADDRESS: byte := 0x04
  const SRC_ADDRESS: byte := 0x80
  /** Destination, source, message type and payload length. */
  const HEADER_SIZE: nat := 4

  /** Conversion of an integer to `unsigned char`: keep the value modulo 256. */
  function ToByte(x: int): byte
  {
    x % 0x100
  }

  /** Conversion of an integer to `unsigned int`: keep the value modulo 2^32. */
  function ToUint32(x: int): uint32
  {
    x % 0x1_0000_0000
  }

  // ---------------------------------------------------------------------
  // checksum
  // ---------------------------------------------------------------------

  /** The sum of all bytes of `s`. */
  function Sum(s: seq<byte>): nat
  {
    if s == [] then 0 else Sum(s[..|s| - 1]) + s[|s| - 1]
  }

  /** The bytes `checksum(myarray, size)` adds up: indices 0 .. size-2. */
  function Summed(msg: seq<byte>, size: int): seq<byte>
    requires size <= |msg|
  {
    if size <= 1 then [] else msg[..size - 1]
  }

  /** `(sum & 0xFF) + (sum >> 8)` for a non-negative sum: the carry byte added back once. */
  function FoldCarry(sum: nat): nat
  {
    sum % 0x100 + sum / 0x100
  }

  /** `v ^ 0xFF` for a non-negative `v`: complements the low eight bits, keeps the rest. */
  function InvertLowByte(v: nat): (r: nat)
    ensures r / 0x100 == v / 0x100
    ensures r % 0x100 == 0xFF - v % 0x100
  {
    v - v % 0x100 + (0xFF - v % 0x100)
  }

  /** The value `checksum(myarray, size)` returns (before any narrowing to a byte). */
  function Checksum(msg: seq<byte>, size: int): nat
    requires size <= |msg|
  {
    InvertLowByte(FoldCarry(Sum(Summed(msg, size))))
  }

  /** The `for` loop of `checksum`, proved to compute `Checksum`. */
  method ComputeChecksum(myarray: array<byte>, arraySize: int) returns (csum: nat)
    requires arraySize <= myarray.Length
    ensures csum == Checksum(myarray[..], arraySize)
    ensures csum % 0x100 == 0xFF - FoldCarry(Sum(Summed(myarray[..], arraySize))) % 0x100
  {
    var sum: nat := 0;
    var i := 0;
    while i < arraySize - 1
      invariant 0 <= i <= myarray.Length
      invariant i == 0 || i <= arraySize - 1
      invariant sum == Sum(myarray[..i])
    {
      assert myarray[..i + 1][..i] == myarray[..i];
      sum := sum + myarray[i];
      i := i + 1;
    }
    assert Summed(myarray[..], arraySize) == myarray[..i];
    csum := InvertLowByte(FoldCarry(sum));
  }

  lemma {:induction false} SumAppend(a: seq<byte>, b: seq<byte>)
    ensures Sum(a + b) == Sum(a) + Sum(b)
    decreases |b|
  {
    if b == [] {
      assert a + b == a;
    } else {
      assert (a + b)[..|a + b| - 1] == a + b[..|b| - 1];
      SumAppend(a, b[..|b| - 1]);
    }
  }

  /** Replacing one byte of `s` changes its sum by exactly the difference. */
  lemma SumUpdate(s: seq<byte>, i: nat, b: byte)
    requires i < |s|
    ensures Sum(s[i := b]) == Sum(s) - s[i] + b
  {
    assert s == s[..i] + [s[i]] + s[i + 1..];
    assert s[i := b] == s[..i] + [b] + s[i + 1..];
    SumAppend(s[..i] + [s[i]], s[i + 1..]);
    SumAppend(s[..i] + [b], s[i + 1..]);
    SumAppend(s[..i], [s[i]]);
    SumAppend(s[..i], [b]);
  }

  /** A message of at most one byte sums to 0, so its checksum is 0xFF. */
  lemma ChecksumOfShortMessage(msg: seq<byte>, size: int)
    requires size <= |msg| && size <= 1
    ensures Checksum(msg, size) == 0xFF
  {
  }

  /** Bytes at index size-1 and beyond (the checksum slot and anything after it) never affect the checksum. */
  lemma ChecksumIgnoresTail(msg: seq<byte>, size: int, i: nat, b: byte)
    requires size <= |msg|
    requires size - 1 <= i < |msg|
    ensures Checksum(msg[i := b], size) == Checksum(msg, size)
  {
    assert Summed(msg[i := b], size) == Summed(msg, size);
  }

  /** Every byte at an index below size-1 enters the sum with its own value. */
  lemma ChecksumSumsEachByte(msg: seq<byte>, size: int, i: nat, b: byte)
    requires size <= |msg|
    requires i < size - 1
    ensures Sum(Summed(msg[i := b], size)) == Sum(Summed(msg, size)) - msg[i] + b
  {
    assert Summed(msg[i := b], size) == Summed(msg, size)[i := b];
    SumUpdate(Summed(msg, size), i, b);
  }

  /** The checksum cannot see the order of the bytes it sums: swapping two of them keeps it. */
  lemma ChecksumIgnoresOrder(msg: seq<byte>, size: int, i: nat, j: nat)
    requires size <= |msg|
    requires i < size - 1 && j < size - 1
    ensures Checksum(msg[i := msg[j]][j := msg[i]], size) == Checksum(msg, size)
  {
    ChecksumSumsEachByte(msg, size, i, msg[j]);
    ChecksumSumsEachByte(msg[i := msg[j]], size, j, msg[i]);
  }

  // ---------------------------------------------------------------------
  // write_message
  // ---------------------------------------------------------------------

  /**
   * A receiver's check of a frame of `size` bytes: the folded sum of the bytes before
   * the last one, plus the last byte, is 0xFF modulo 256.
   */
  predicate ChecksumValid(frame: seq<byte>, size: int)
  {
    1 <= size <= |frame| &&
    (FoldCarry(Sum(frame[..size - 1])) + frame[size - 1]) % 0x100 == 0xFF
  }

  /** The buffer after `write_message` stores the narrowed checksum in slot size-1. */
  function Seal(msg: seq<byte>, size: int): (r: seq<byte>)
    requires 1 <= size <= |msg|
    ensures |r| == |msg|
    ensures forall i :: 0 <= i < |msg| && i != size - 1 ==> r[i] == msg[i]
    ensures ChecksumValid(r, size)
  {
    msg[size - 1 := ToByte(Checksum(msg, size))]
  }

  /** Sealing an already sealed buffer changes nothing: the checksum slot is not summed. */
  lemma SealIdempotent(msg: seq<byte>, size: int)
    requires 1 <= size <= |msg|
    ensures Seal(Seal(msg, size), size) == Seal(msg, size)
  {
    ChecksumIgnoresTail(msg, size, size - 1, ToByte(Checksum(msg, size)));
  }

  /** A buffer passes the receiver's check exactly when sealing leaves it as it is. */
  lemma ValidIffSealed(msg: seq<byte>, size: int)
    requires 1 <= size <= |msg|
    ensures ChecksumValid(msg, size) <==> Seal(msg, size) == msg
  {
    var s := FoldCarry(Sum(msg[..size - 1]));
    assert Summed(msg, size) == msg[..size - 1];
    assert ToByte(Checksum(msg, size)) == 0xFF - s % 0x100;
    if ChecksumValid(msg, size) {
      assert msg[size - 1] == 0xFF - s % 0x100;
    }
    if Seal(msg, size) == msg {
      assert msg[size - 1] == Seal(msg, size)[size - 1];
    }
  }

  /**
   * `write_message`: stores the checksum's low byte in the last slot, hands the first
   * `messageSize` bytes to the transport (whose outcome is `writeSucceeds`), and
   * reports the outcome to the log unless `activity` is "NONE".
   */
  method WriteMessage(message: array<byte>, messageSize: int, activity: string, writeSucceeds: bool)
    returns (ok: bool, frame: seq<byte>, log: seq<LogEntry>)
    requires 1 <= messageSize <= message.Length
    modifies message
    ensures message[..] == Seal(old(message[..]), messageSize)
    ensures frame == message[..messageSize]
    ensures ok == writeSucceeds
    ensures activity == "NONE" ==> log == []
    ensures activity != "NONE" && ok ==> log == [Info(activity + " was Successful.")]
    ensures activity != "NONE" && !ok ==> log == [Error("Error " + activity)]
  {
    var logMessage := activity != "NONE";
    var csum := ComputeChecksum(message, messageSize);
    message[messageSize - 1] := ToByte(csum);
    frame := message[..messageSize];
    if !writeSucceeds {
      log := if logMessage then [Error("Error " + activity)] else [];
      ok := false;
    } else {
      log := if logMessage then [Info(activity + " was Successful.")] else [];
      ok := true;
    }
  }

  // ---------------------------------------------------------------------
  // Frame layout
  // ---------------------------------------------------------------------

  /** A decoded frame: its message type and payload. */
  datatype Message = Message(msgType: byte, payload: seq<byte>)

  /** A frame with the fixed addresses, the payload length and a sealed checksum slot. */
  function EncodeFrame(msgType: byte, payload: seq<byte>): (f: seq<byte>)
    requires |payload| < 0x100
    ensures |f| == HEADER_SIZE + |payload| + 1
    ensures f[0] == DEST_ADDRESS && f[1] == SRC_ADDRESS && f[2] == msgType && f[3] == |payload|
    ensures f[HEADER_SIZE..|f| - 1] == payload
    ensures ChecksumValid(f, |f|)
  {
    var raw := [DEST_ADDRESS, SRC_ADDRESS, msgType, |payload|] + payload + [0];
    Seal(raw, |raw|)
  }

  /** Reads a frame back: None unless the addresses, the length byte and the checksum agree. */
  function DecodeFrame(f: seq<byte>): Option<Message>
  {
    if |f| >= HEADER_SIZE + 1 && f[0] == DEST_ADDRESS && f[1] == SRC_ADDRESS
       && f[3] == |f| - HEADER_SIZE - 1 && ChecksumValid(f, |f|)
    then Some(Message(f[2], f[HEADER_SIZE..|f| - 1]))
    else None
  }

  lemma DecodeEncode(msgType: byte, payload: seq<byte>)
    requires |payload| < 0x100
    ensures DecodeFrame(EncodeFrame(msgType, payload)) == Some(Message(msgType, payload))
  {
  }

  /** Every frame that decodes is the encoding of what it decodes to. */
  lemma EncodeDecode(f: seq<byte>)
    requires DecodeFrame(f).Some?
    ensures |DecodeFrame(f).value.payload| < 0x100
    ensures EncodeFrame(DecodeFrame(f).value.msgType, DecodeFrame(f).value.payload) == f
  {
    var m := DecodeFrame(f).value;
    var raw := [DEST_ADDRESS, SRC_ADDRESS, m.msgType, |m.payload|] + m.payload + [0];
    assert raw[..|raw| - 1] == f[..|f| - 1];
    assert Summed(raw, |raw|) == Summed(f, |f|);
    ValidIffSealed(f, |f|);
    assert Seal(raw, |raw|) == Seal(f, |f|);
  }

  // ---------------------------------------------------------------------
  // int_to_twobytes
  // ---------------------------------------------------------------------

  /** C's `/`: the quotient truncated toward zero. */
  function TruncDiv(a: int, b: int): int
    requires b > 0
  {
    if a >= 0 then a / b else -((-a) / b)
  }

  /** C's `%`: the remainder takes the sign of the dividend. */
  function TruncRem(a: int, b: int): int
    requires b > 0
  {
    a - b * TruncDiv(a, b)
  }

  /** `int_to_twobytes`: [input / 256, input % 256], each narrowed to `unsigned char`. */
  function IntToTwoBytes(inputInt: int32): (r: seq<byte>)
    ensures |r| == 2
    ensures r[1] == inputInt % 0x100
    ensures 0 <= inputInt ==> r[0] == (inputInt / 0x100) % 0x100
  {
    var byteSize := 0x100;
    [ToByte(TruncDiv(inputInt, byteSize)), ToByte(TruncRem(inputInt, byteSize))]
  }

  /** A big-endian byte pair read back as a 16-bit value. */
  function TwoBytesToInt(hi: byte, lo: byte): (n: nat)
    ensures n < 0x1_0000
  {
    hi * 0x100 + lo
  }

  /** Inside 0..65535 the split is lossless and big-endian. */
  lemma TwoBytesRoundTrip(n: int32)
    requires 0 <= n < 0x1_0000
    ensures IntToTwoBytes(n) == [n / 0x100, n % 0x100]
    ensures TwoBytesToInt(IntToTwoBytes(n)[0], IntToTwoBytes(n)[1]) == n
  {
  }

  lemma TwoBytesOfPair(hi: byte, lo: byte)
    ensures IntToTwoBytes(TwoBytesToInt(hi, lo)) == [hi, lo]
  {
    var n := TwoBytesToInt(hi, lo);
    assert n / 0x100 == hi;
  }

  /** Above 65535 the split is not bounds-checked: the high byte wraps, keeping n modulo 2^16. */
  lemma TwoBytesWrap(n: int32)
    requires 0 <= n
    ensures TwoBytesToInt(IntToTwoBytes(n)[0], IntToTwoBytes(n)[1]) == n % 0x1_0000
  {
    var q := n / 0x100;
    var r := (q % 0x100) * 0x100 + n % 0x100;
    assert n == (q / 0x100) * 0x1_0000 + r;
    ModOfMultiplePlus(n, q / 0x100, r);
  }

  lemma ModOfMultiplePlus(n: int, k: int, r: int)
    requires 0 <= r < 0x1_0000 && n == k * 0x1_0000 + r
    ensures n % 0x1_0000 == r
  {
  }

  /** Negative inputs between -255 and -1: the truncating division gives a high byte of 0. */
  lemma TwoBytesOfSmallNegative(n: int32)
    requires -0x100 < n < 0
    ensures IntToTwoBytes(n) == [0, n + 0x100]
  {
  }

  /**
   * Below zero, C's `/` and `%` both truncate toward zero, so the pair does not keep n modulo
   * 2^16: when 256 does not divide n, the value read back is 256 too high (-300 reads back as
   * 65492, not 65236).
   */
  lemma TwoBytesOfNegative(n: int32)
    requires n < 0
    ensures TwoBytesToInt(IntToTwoBytes(n)[0], IntToTwoBytes(n)[1])
            == (if n % 0x100 == 0 then n else n + 0x100) % 0x1_0000
  {
    var m: int := 0 - n as int;
    var q := m / 0x100;
    var r := m % 0x100;
    assert m == 0x100 * q + r;
    assert TruncDiv(n, 0x100) == -q;
    assert TruncRem(n, 0x100) == -r;
    var hi := (-q) % 0x100;
    var k := (-q) / 0x100;
    assert -q == 0x100 * k + hi;
    assert IntToTwoBytes(n)[0] == hi;
    if r == 0 {
      assert n % 0x100 == 0;
      assert IntToTwoBytes(n)[1] == 0;
      assert n == k * 0x1_0000 + 0x100 * hi;
      ModOfMultiplePlus(n, k, 0x100 * hi);
    } else {
      var lo := 0x100 - r;
      assert n % 0x100 == lo;
      assert IntToTwoBytes(n)[1] == lo;
      assert n + 0x100 == k * 0x1_0000 + (0x100 * hi + lo);
      ModOfMultiplePlus(n + 0x100, k, 0x100 * hi + lo);
    }
  }

  /** -300 is the example: its pair is (255, 212), which reads back as 65492. */
  lemma TwoBytesOfMinus300()
    ensures IntToTwoBytes(-300) == [255, 212]
    ensures TwoBytesToInt(255, 212) == 65492 != -300 % 0x1_0000
  {
    assert TruncDiv(-300, 0x100) == -1 && TruncRem(-300, 0x100) == -44;
  }

  lemma TwoBytesExamples()
    ensures IntToTwoBytes(300) == [1, 44]
    ensures IntToTwoBytes(0) == [0, 0]
    ensures IntToTwoBytes(65535) == [255, 255]
    ensures IntToTwoBytes(-1) == [0, 255]
  {
    assert TruncDiv(300, 0x100) == 1 && TruncRem(300, 0x100) == 44;
    assert TruncDiv(65535, 0x100) == 255 && TruncRem(65535, 0x100) == 255;
    assert TruncDiv(-1, 0x100) == 0 && TruncRem(-1, 0x100) == -1;
  }

  // ---------------------------------------------------------------------
  // print_as_hex
  // ---------------------------------------------------------------------

  predicate IsUpperHexDigit(c: char)
  {
    '0' <= c <= '9' || 'A' <= c <= 'F'
  }

  function HexDigit(d: nat): (c: char)
    requires d < 16
    ensures IsUpperHexDigit(c)
  {
    if d < 10 then (48 + d) as char else (55 + d) as char
  }

  function HexValue(c: char): (d: nat)
    requires IsUpperHexDigit(c)
    ensures d < 16
  {
    if c <= '9' then c as int - 48 else c as int - 55
  }

  /** `print_as_hex`: the "0x%02X" rendering of a byte. */
  function PrintAsHex(num: byte): (s: string)
    ensures |s| == 4 && s[..2] == "0x"
    ensures IsUpperHexDigit(s[2]) && IsUpperHexDigit(s[3])
  {
    "0x" + [HexDigit(num / 16), HexDigit(num % 16)]
  }

  /** Reads "0xHH" with two upper-case hex digits back into a byte. */
  function ParseHex(s: string): Option<byte>
  {
    if |s| == 4 && s[0] == '0' && s[1] == 'x' && IsUpperHexDigit(s[2]) && IsUpperHexDigit(s[3])
    then Some(HexValue(s[2]) * 16 + HexValue(s[3]))
    else None
  }

  lemma ParsePrintedHex(num: byte)
    ensures ParseHex(PrintAsHex(num)) == Some(num)
  {
    var s := PrintAsHex(num);
    assert HexValue(s[2]) == num / 16;
    assert HexValue(s[3]) == num % 16;
  }

  /** The rendering is canonical: every string that parses is the rendering of its value. */
  lemma PrintParsedHex(s: string)
    requires ParseHex(s).Some?
    ensures PrintAsHex(ParseHex(s).value) == s
  {
    var num := ParseHex(s).value;
    assert num / 16 == HexValue(s[2]);
    assert num % 16 == HexValue(s[3]);
    assert HexDigit(HexValue(s[2])) == s[2];
    assert HexDigit(HexValue(s[3])) == s[3];
  }
}
