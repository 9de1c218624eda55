/** The byte stream under the C clients' `net_read_n` / `net_write_n`.

    The receive side is the sequence of bytes the peer will send before it
    closes; the transmit side records what was written. Whether writes
    succeed is fixed when the socket is made (`txOk`). */
module Net {
  import opened Bytes

  class Socket {
    const rx: seq<byte>
    var rxPos: nat
    var tx: seq<byte>
    const txOk: bool

    ghost predicate Valid()
      reads this
    {
      rxPos <= |rx|
    }

    constructor (rx: seq<byte>, txOk: bool)
      ensures Valid()
      ensures this.rx == rx && rxPos == 0 && tx == [] && this.txOk == txOk
    {
      this.rx := rx;
      this.txOk := txOk;
      rxPos := 0;
      tx := [];
    }

    /** Reads exactly `n` bytes: returns `n` and the bytes when that many
        arrive, and 0 (the peer closed) after consuming what is left otherwise. */
    method ReadN(n: nat) returns (r: int, buf: seq<byte>)
      requires Valid()
      modifies this`rxPos
      ensures Valid()
      ensures old(rxPos) + n <= |rx| ==>
        r == n && buf == rx[old(rxPos)..old(rxPos) + n] && rxPos == old(rxPos) + n
      ensures old(rxPos) + n > |rx| ==> r == 0 && rxPos == |rx|
    {
      if rxPos + n <= |rx| {
        buf := rx[rxPos..rxPos + n];
        rxPos := rxPos + n;
        r := n;
      } else {
        buf := rx[rxPos..];
        rxPos := |rx|;
        r := 0;
      }
    }

    /** Writes all of `buf` and returns its length, or returns -1 and writes
        nothing; an empty buffer never reaches the socket and returns 0. */
    method WriteN(buf: seq<byte>) returns (r: int)
      modifies this`tx
      ensures |buf| == 0 ==> r == 0 && tx == old(tx)
      ensures txOk ==> r == |buf| && tx == old(tx) + buf
      ensures !txOk && |buf| > 0 ==> r == -1 && tx == old(tx)
    {
      if |buf| == 0 {
        r := 0;
      } else if txOk {
        tx := tx + buf;
        r := |buf|;
      } else {
        r := -1;
      }
    }
  }
}
