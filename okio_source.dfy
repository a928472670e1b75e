/** The okio stream that the fault-recording decorator wraps. Its byte-level
    behaviour lives in a library outside this model, so the delegate is a
    scripted oracle: every I/O call it receives advances a call counter, and
    what the k-th call returns or throws, given its own arguments, is fixed
    in advance by a script. */
module Okio {
  import opened JavaIO

  /** The okio.Buffer a source exposes; opaque here. */
  class Buffer {
    constructor () {}
  }

  /** The java.io.InputStream view of a source; opaque here. */
  class InputStream {
    constructor () {}
  }

  /** The okio.Timeout of a source; opaque here. */
  class Timeout {
    constructor () {}
  }

  /** What the delegate answers to each kind of I/O call, given how many I/O
      calls it has answered before (its position, as far as this model sees
      it) and the call's own arguments. */
  datatype Script = Script(
    exhausted: nat -> Outcome<bool>,
    require: (nat, Int64) -> Outcome<()>,
    readByte: nat -> Outcome<Byte>,
    readUtf8: nat -> Outcome<string>,
    indexOf: (nat, Byte, Int64) -> Outcome<Int64>,
    close: nat -> Outcome<()>)

  /** The delegate okio.BufferedSource. */
  class BufferedSource {
    /** How many I/O calls this source has answered. */
    var calls: nat
    const script: Script
    const buffer: Buffer
    const inputStream: InputStream
    const timeout: Timeout

    constructor (script: Script, buffer: Buffer, inputStream: InputStream, timeout: Timeout)
      ensures calls == 0 && this.script == script
      ensures this.buffer == buffer && this.inputStream == inputStream && this.timeout == timeout
    {
      calls := 0;
      this.script := script;
      this.buffer := buffer;
      this.inputStream := inputStream;
      this.timeout := timeout;
    }

    method Exhausted() returns (r: Outcome<bool>)
      modifies this
      ensures calls == old(calls) + 1 && r == script.exhausted(old(calls))
    {
      r := script.exhausted(calls);
      calls := calls + 1;
    }

    method Require(byteCount: Int64) returns (r: Outcome<()>)
      modifies this
      ensures calls == old(calls) + 1 && r == script.require(old(calls), byteCount)
    {
      r := script.require(calls, byteCount);
      calls := calls + 1;
    }

    method ReadByte() returns (r: Outcome<Byte>)
      modifies this
      ensures calls == old(calls) + 1 && r == script.readByte(old(calls))
    {
      r := script.readByte(calls);
      calls := calls + 1;
    }

    method ReadUtf8() returns (r: Outcome<string>)
      modifies this
      ensures calls == old(calls) + 1 && r == script.readUtf8(old(calls))
    {
      r := script.readUtf8(calls);
      calls := calls + 1;
    }

    method IndexOf(b: Byte, fromIndex: Int64) returns (r: Outcome<Int64>)
      modifies this
      ensures calls == old(calls) + 1 && r == script.indexOf(old(calls), b, fromIndex)
    {
      r := script.indexOf(calls, b, fromIndex);
      calls := calls + 1;
    }

    method Close() returns (r: Outcome<()>)
      modifies this
      ensures calls == old(calls) + 1 && r == script.close(old(calls))
    {
      r := script.close(calls);
      calls := calls + 1;
    }
  }
}
