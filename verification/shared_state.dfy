/**
 The state shared between the network process and the prime-search worker:
 the prime cell (`Value('i', 0)`, a C `int`) and the run flag
 (`Value('B', 1)`, a C `unsigned char`). Each locked read or write is one
 atomic step of the model.
 */
module SharedState {
  import opened Wrappers
  import opened Codec

  type flag = x: int | 0 <= x < 0x100

  datatype SharedCell = SharedCell(prime: int, running: flag)

  /** `init_shares` (and the `Value(...)` lines of the other `main`s): prime 0, running 1. */
  function InitShares(): (cell: SharedCell)
    ensures cell.running == 1
    ensures cell.prime == 0 && EncodeReply(cell.prime) == Success([0, 0, 0, 0])
  {
    ReplyDecodeEncode([0, 0, 0, 0]);
    FromBytesSnoc([0, 0, 0], 0);
    FromBytesSnoc([0, 0], 0);
    FromBytesSnoc([0], 0);
    FromBytesSnoc([], 0);
    assert [0, 0, 0, 0] == [0, 0, 0] + [0];
    SharedCell(0, 1)
  }

  /** `is_running` of step_09: the flag is exactly 1. */
  predicate IsRunning(cell: SharedCell) {
    cell.running == 1
  }

  /** `set_running_to_false`: the flag becomes 0 and the prime is left alone. */
  function SetRunningToFalse(cell: SharedCell): (r: SharedCell)
    ensures !IsRunning(r) && r.running == 0
    ensures r.prime == cell.prime
  {
    cell.(running := 0)
  }

  /** A locked write of the prime cell: the value is stored modulo 2^32 as a C `int`. */
  function StorePrime(cell: SharedCell, v: int): (r: SharedCell)
    ensures r.running == cell.running
    ensures I32_MIN <= r.prime <= I32_MAX && (v - r.prime) % 0x1_0000_0000 == 0
    ensures I32_MIN <= v <= I32_MAX ==> r.prime == v
  {
    var stored := WrapI32(v);
    assert I32_MIN <= v <= I32_MAX ==> stored == v by {
      if I32_MIN <= v <= I32_MAX {
        WrapI32InRange(v);
      }
    }
    cell.(prime := stored)
  }
}
