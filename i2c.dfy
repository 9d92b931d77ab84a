/**
 * write_i2cDevice of peripheral.cpp, seen from its callers: every call sends
 * a buffer to a device address and reports the status of
 * Wire.endTransmission (0 on success). The bus is an object that records
 * the writes and answers with statuses given to it in advance; the wire
 * itself is not modelled.
 */
module I2c {

  /** One call of write_i2cDevice: the device address and the bytes sent. */
  datatype I2cWrite = I2cWrite(address: int, data: seq<bv8>)

  /** The status of write k of a script of answers: success (0) once the script is used up. */
  function Reply(replies: seq<int>, k: nat): int {
    if k < |replies| then replies[k] else 0
  }

  /** The script after one answer has been given. */
  function Rest(replies: seq<int>): (r: seq<int>)
    ensures forall k: nat :: Reply(r, k) == Reply(replies, k + 1)
  {
    if replies == [] then [] else replies[1..]
  }

  /** The script after n answers have been given. */
  function Drop(replies: seq<int>, n: nat): (r: seq<int>)
    ensures forall k: nat :: Reply(r, k) == Reply(replies, n + k)
  {
    if n <= |replies| then replies[n..] else []
  }

  /** Giving one more answer after n is dropping n + 1. */
  lemma RestOfDrop(replies: seq<int>, n: nat)
    ensures Rest(Drop(replies, n)) == Drop(replies, n + 1)
  {
  }

  /** write_i2cDevice: it records the bytes sent to each address, in order. */
  class I2cBus {
    var log: seq<I2cWrite>
    /** The statuses Wire.endTransmission reports for the coming writes. */
    var replies: seq<int>

    constructor (script: seq<int>)
      ensures log == [] && replies == script
    {
      log := [];
      replies := script;
    }

    method Write(adrs: int, buf: array<bv8>, count: int) returns (err: int)
      requires 0 <= adrs < 0x100 && 0 <= count <= buf.Length
      modifies this
      ensures log == old(log) + [I2cWrite(adrs, buf[..count])]
      ensures err == Reply(old(replies), 0) && replies == Rest(old(replies))
    {
      log := log + [I2cWrite(adrs, buf[..count])];
      err := Reply(replies, 0);
      replies := Rest(replies);
    }
  }

}
