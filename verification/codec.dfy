/**
 The wire protocol between the prime server and its clients.

 A request is a raw byte string: exactly `get` asks for the latest prime,
 exactly `end` asks the server to shut down, anything else is unknown.
 A reply is the prime as a fixed-width big-endian unsigned integer
 (`int.to_bytes(4, 'big')`), read back by the clients with
 `int.from_bytes(data, 'big')`.
 */
module Codec {
  import opened Wrappers

  type byte = x: int | 0 <= x < 0x100

  /** ASCII "get". */
  const GET_REQUEST: seq<byte> := [0x67, 0x65, 0x74]
  /** ASCII "end". */
  const END_REQUEST: seq<byte> := [0x65, 0x6E, 0x64]

  /** Width of a reply, the `4` of `val.to_bytes(4, byteorder='big')`. */
  const REPLY_LEN: nat := 4

  datatype Command = ShutdownCmd | GetPrimeCmd | UnknownCmd

  /** The request bytes a client sends for a command it can name. */
  function RequestFor(cmd: Command): (msg: seq<byte>)
    requires !cmd.UnknownCmd?
    ensures |msg| == 3
  {
    if cmd.ShutdownCmd? then END_REQUEST else GET_REQUEST
  }

  /** `get_command`: total, exact-match decoding of one received message. */
  function GetCommand(msg: seq<byte>): (cmd: Command)
    ensures cmd.ShutdownCmd? <==> msg == END_REQUEST
    ensures cmd.GetPrimeCmd? <==> msg == GET_REQUEST
  {
    if msg == END_REQUEST then ShutdownCmd
    else if msg == GET_REQUEST then GetPrimeCmd
    else UnknownCmd
  }

  /** Decoding inverts the request encoding of every nameable command. */
  lemma GetCommandInvertsRequest(cmd: Command)
    requires !cmd.UnknownCmd?
    ensures GetCommand(RequestFor(cmd)) == cmd
  {
  }

  /** A message is UNKNOWN exactly when it is neither request, whatever its length or content. */
  lemma UnknownIsEverythingElse(msg: seq<byte>)
    ensures GetCommand(msg).UnknownCmd? <==> msg != GET_REQUEST && msg != END_REQUEST
    ensures |msg| != 3 ==> GetCommand(msg).UnknownCmd?
  {
  }

  // ---------------------------------------------------------------------------
  // Unsigned big-endian integers

  function Pow256(n: nat): (p: nat)
    ensures p >= 1
  {
    if n == 0 then 1 else 256 * Pow256(n - 1)
  }

  /** `int.from_bytes(data, 'big')`: the unsigned big-endian value of `data` (0 for no bytes). */
  function FromBytesBE(data: seq<byte>): (v: nat)
    ensures v < Pow256(|data|)
  {
    if |data| == 0 then 0
    else
      var prefix := FromBytesBE(data[..|data| - 1]);
      assert prefix * 256 <= (Pow256(|data| - 1) - 1) * 256;
      prefix * 256 + data[|data| - 1]
  }

  /** The `n` lowest base-256 digits of `v`, most significant first. */
  function Digits(v: nat, n: nat): (d: seq<byte>)
    ensures |d| == n
  {
    if n == 0 then [] else Digits(v / 256, n - 1) + [v % 256]
  }

  /** `int.to_bytes(n, 'big')`: fails with OverflowError for a negative value or one needing more than `n` bytes. */
  function ToBytesBE(v: int, n: nat): (r: Result<seq<byte>, PyError>)
    ensures r.Success? <==> 0 <= v < Pow256(n)
    ensures r.Success? ==> |r.value| == n && FromBytesBE(r.value) == v
    ensures r.Failure? ==> r.error == OverflowError
  {
    if v < 0 || v >= Pow256(n) then Failure(OverflowError)
    else
      DigitsRoundTrip(v, n);
      Success(Digits(v, n))
  }

  lemma DivMod256(q: nat, b: byte)
    ensures (q * 256 + b) / 256 == q
    ensures (q * 256 + b) % 256 == b
  {
  }

  /** Appending a byte shifts the value one digit up. */
  lemma FromBytesSnoc(prefix: seq<byte>, b: byte)
    ensures FromBytesBE(prefix + [b]) == FromBytesBE(prefix) * 256 + b
  {
    assert (prefix + [b])[..|prefix|] == prefix;
  }

  lemma DivBound(v: nat, p: nat)
    requires v < 256 * p
    ensures v / 256 < p
  {
  }

  /** Decoding the digits of a value that fits gives the value back. */
  lemma {:induction false} DigitsRoundTrip(v: nat, n: nat)
    requires v < Pow256(n)
    ensures FromBytesBE(Digits(v, n)) == v
  {
    if n > 0 {
      DivBound(v, Pow256(n - 1));
      DigitsRoundTrip(v / 256, n - 1);
      FromBytesSnoc(Digits(v / 256, n - 1), v % 256);
    }
  }

  /** Encoding the value of any byte string at its own width gives the string back. */
  lemma {:induction false} FromBytesRoundTrip(data: seq<byte>)
    ensures Digits(FromBytesBE(data), |data|) == data
  {
    if |data| > 0 {
      var n := |data|;
      var prefix := data[..n - 1];
      FromBytesRoundTrip(prefix);
      DivMod256(FromBytesBE(prefix), data[n - 1]);
      assert data == prefix + [data[n - 1]];
    }
  }

  /** The server's reply encoding (`send_val_to_client`). */
  function EncodeReply(val: int): (r: Result<seq<byte>, PyError>)
    ensures r.Success? <==> 0 <= val < 0x1_0000_0000
    ensures r.Success? ==> |r.value| == REPLY_LEN && FromBytesBE(r.value) == val
    ensures r.Failure? ==> r.error == OverflowError
  {
    assert Pow256(4) == 0x1_0000_0000;
    ToBytesBE(val, REPLY_LEN)
  }

  /** A four-byte reply is the encoding of exactly the value the client decodes from it. */
  lemma ReplyDecodeEncode(data: seq<byte>)
    requires |data| == REPLY_LEN
    ensures EncodeReply(FromBytesBE(data)) == Success(data)
  {
    FromBytesRoundTrip(data);
  }

  // ---------------------------------------------------------------------------
  // The shared prime cell is a C `int` (`Value('i', ...)`)

  const I32_MIN: int := -0x8000_0000
  const I32_MAX: int := 0x7FFF_FFFF

  /**
   Assigning a Python int to a ctypes `c_int` keeps its low 32 bits and reads
   them back as a signed value; ctypes performs no overflow check.
   */
  function WrapI32(v: int): (r: int)
    ensures I32_MIN <= r <= I32_MAX
    ensures (v - r) % 0x1_0000_0000 == 0
  {
    var m := v % 0x1_0000_0000;
    if m > I32_MAX then m - 0x1_0000_0000 else m
  }

  /** A value already in the C `int` range is stored unchanged. */
  lemma WrapI32InRange(v: int)
    requires I32_MIN <= v <= I32_MAX
    ensures WrapI32(v) == v
  {
  }
}
