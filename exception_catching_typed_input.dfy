/** The fault-recording decorator: a TypedInput whose stream forwards every
    call to the delegate's stream and, when a call throws an IOException,
    stores that exception before rethrowing it, so that a caller can ask
    afterwards whether reading the body ever failed in the transport. */
module ExceptionCatching {
  import opened JavaIO
  import Okio
  import opened FaultRecord

  /** The delegate retrofit.mime.TypedInput, as an oracle: the mime type and
      length it reports, and what its in() returns or throws. */
  class TypedInput {
    const mimeType: string
    const length: Int64
    const source: Outcome<Okio.BufferedSource>
    /** How many times in() has been called. */
    var opens: nat

    constructor (mimeType: string, length: Int64, source: Outcome<Okio.BufferedSource>)
      ensures this.mimeType == mimeType && this.length == length && this.source == source
      ensures opens == 0
    {
      this.mimeType := mimeType;
      this.length := length;
      this.source := source;
      opens := 0;
    }

    method In() returns (r: Outcome<Okio.BufferedSource>)
      modifies this
      ensures opens == old(opens) + 1 && r == source
    {
      r := source;
      opens := opens + 1;
    }
  }

  /** The inner ExceptionCatchingSource. `faults` is the history of its
      tracked calls, from which the field `thrownException` is determined. */
  class ExceptionCatchingSource {
    const delegate: Okio.BufferedSource
    var thrownException: Option<IOException>
    ghost var faults: seq<Fault>

    ghost predicate Valid()
      reads this
    {
      thrownException == Recorded(faults)
    }

    constructor (delegate: Okio.BufferedSource)
      ensures Valid() && this.delegate == delegate
      ensures faults == [] && thrownException == None
    {
      this.delegate := delegate;
      thrownException := None;
      faults := [];
    }

    // Untracked accessors: forwarded, and unable to touch the record.

    function Buffer(): (b: Okio.Buffer)
      ensures b == delegate.buffer
    {
      delegate.buffer
    }

    function InputStream(): (s: Okio.InputStream)
      ensures s == delegate.inputStream
    {
      delegate.inputStream
    }

    function Timeout(): (t: Okio.Timeout)
      ensures t == delegate.timeout
    {
      delegate.timeout
    }

    /** The catch block every tracked call shares: a thrown IOException is
        stored, then the outcome (value or the same exception) goes back to
        the caller unchanged. An unchecked exception is not caught, so it
        passes through without touching the record. */
    method Catch<T>(o: Outcome<T>) returns (r: Outcome<T>)
      requires Valid()
      modifies this
      ensures Valid() && faults == old(faults) + [FaultOf(o)]
      ensures r == o
      ensures thrownException == if o.Fail? then Some(o.error) else old(thrownException)
    {
      if o.Fail? {
        thrownException := Some(o.error);
      }
      TrackedCallEffect(faults, FaultOf(o));
      faults := faults + [FaultOf(o)];
      r := o;
    }

    method Exhausted() returns (r: Outcome<bool>)
      requires Valid()
      modifies this, delegate
      ensures Valid() && faults == old(faults) + [FaultOf(r)]
      ensures r == delegate.script.exhausted(old(delegate.calls))
      ensures delegate.calls == old(delegate.calls) + 1
      ensures thrownException == if r.Fail? then Some(r.error) else old(thrownException)
    {
      var o := delegate.Exhausted();
      r := Catch(o);
    }

    method Require(byteCount: Int64) returns (r: Outcome<()>)
      requires Valid()
      modifies this, delegate
      ensures Valid() && faults == old(faults) + [FaultOf(r)]
      ensures r == delegate.script.require(old(delegate.calls), byteCount)
      ensures delegate.calls == old(delegate.calls) + 1
      ensures thrownException == if r.Fail? then Some(r.error) else old(thrownException)
    {
      var o := delegate.Require(byteCount);
      r := Catch(o);
    }

    method ReadByte() returns (r: Outcome<Byte>)
      requires Valid()
      modifies this, delegate
      ensures Valid() && faults == old(faults) + [FaultOf(r)]
      ensures r == delegate.script.readByte(old(delegate.calls))
      ensures delegate.calls == old(delegate.calls) + 1
      ensures thrownException == if r.Fail? then Some(r.error) else old(thrownException)
    {
      var o := delegate.ReadByte();
      r := Catch(o);
    }

    method ReadUtf8() returns (r: Outcome<string>)
      requires Valid()
      modifies this, delegate
      ensures Valid() && faults == old(faults) + [FaultOf(r)]
      ensures r == delegate.script.readUtf8(old(delegate.calls))
      ensures delegate.calls == old(delegate.calls) + 1
      ensures thrownException == if r.Fail? then Some(r.error) else old(thrownException)
    {
      var o := delegate.ReadUtf8();
      r := Catch(o);
    }

    method IndexOf(b: Byte, fromIndex: Int64) returns (r: Outcome<Int64>)
      requires Valid()
      modifies this, delegate
      ensures Valid() && faults == old(faults) + [FaultOf(r)]
      ensures r == delegate.script.indexOf(old(delegate.calls), b, fromIndex)
      ensures delegate.calls == old(delegate.calls) + 1
      ensures thrownException == if r.Fail? then Some(r.error) else old(thrownException)
    {
      var o := delegate.IndexOf(b, fromIndex);
      r := Catch(o);
    }

    method Close() returns (r: Outcome<()>)
      requires Valid()
      modifies this, delegate
      ensures Valid() && faults == old(faults) + [FaultOf(r)]
      ensures r == delegate.script.close(old(delegate.calls))
      ensures delegate.calls == old(delegate.calls) + 1
      ensures thrownException == if r.Fail? then Some(r.error) else old(thrownException)
    {
      var o := delegate.Close();
      r := Catch(o);
    }
  }

  /** The outer ExceptionCatchingTypedInput. */
  class ExceptionCatchingTypedInput {
    const delegate: TypedInput
    const delegateSource: ExceptionCatchingSource

    ghost predicate Valid()
      reads delegateSource
    {
      delegateSource.Valid()
    }

    /** Wraps a source the delegate has already opened. */
    constructor (delegate: TypedInput, source: Okio.BufferedSource)
      ensures this.delegate == delegate && fresh(delegateSource)
      ensures delegateSource.delegate == source && delegateSource.faults == []
      ensures Valid()
    {
      this.delegate := delegate;
      delegateSource := new ExceptionCatchingSource(source);
    }

    /** The Java constructor: opens the delegate's stream once and wraps it;
        when that open throws, no decorator is made and the exception
        propagates. */
    static method Open(delegate: TypedInput) returns (r: Outcome<ExceptionCatchingTypedInput>)
      modifies delegate
      ensures delegate.opens == old(delegate.opens) + 1
      ensures delegate.source.Fail? ==> r == Fail(delegate.source.error)
      ensures delegate.source.Unchecked? ==> r == Unchecked(delegate.source.exception)
      ensures delegate.source.Ok? ==>
                r.Ok? && fresh(r.value) && fresh(r.value.delegateSource) &&
                r.value.delegate == delegate &&
                r.value.delegateSource.delegate == delegate.source.value &&
                r.value.Valid() && r.value.delegateSource.faults == []
    {
      var opening := delegate.In();
      match opening
      case Fail(e) =>
        r := Fail(e);
      case Unchecked(x) =>
        r := Unchecked(x);
      case Ok(source) =>
        var wrapper := new ExceptionCatchingTypedInput(delegate, source);
        r := Ok(wrapper);
    }

    function MimeType(): (m: string)
      ensures m == delegate.mimeType
    {
      delegate.mimeType
    }

    function Length(): (n: Int64)
      ensures n == delegate.length
    {
      delegate.length
    }

    /** Always the one wrapper made when this decorator was created. */
    function In(): (s: ExceptionCatchingSource)
      ensures s == delegateSource
    {
      delegateSource
    }

    function GetThrownException(): (e: Option<IOException>)
      reads delegateSource
      ensures Valid() ==> e == Recorded(delegateSource.faults)
      ensures Valid() && delegateSource.faults == [] ==> e == None
    {
      delegateSource.thrownException
    }

    function ThrewException(): (b: bool)
      reads delegateSource
      ensures b <==> GetThrownException().Some?
      ensures Valid() ==>
                (b <==> exists i :: 0 <= i < |delegateSource.faults| && delegateSource.faults[i].Some?)
    {
      NoFaultIff(delegateSource.faults);
      delegateSource.thrownException != None
    }
  }

  /** A body of two bytes whose next read fails, then a close that fails too. */
  method TwoBytesThenFault()
  {
    var readFault := new IOException("unexpected end of stream");
    var closeFault := new IOException("connection reset");
    var script := Okio.Script(
      _ => Ok(false),
      (_, _) => Ok(()),
      i => if i == 0 then Ok(0x68) else if i == 1 then Ok(0x69) else Fail(readFault),
      _ => Ok(""),
      (_, _, _) => Ok(-1),
      _ => Fail(closeFault));
    var buffer := new Okio.Buffer();
    var stream := new Okio.InputStream();
    var timeout := new Okio.Timeout();
    var source := new Okio.BufferedSource(script, buffer, stream, timeout);
    var input := new TypedInput("text/plain", 3, Ok(source));
    var created := ExceptionCatchingTypedInput.Open(input);
    var wrapper := created.value;
    assert !wrapper.ThrewException() && wrapper.GetThrownException() == None;

    var body := wrapper.In();
    var b0 := body.ReadByte();
    var b1 := body.ReadByte();
    assert b0 == Ok(0x68) && b1 == Ok(0x69);
    assert wrapper.GetThrownException() == None;

    var b2 := body.ReadByte();
    assert b2 == Fail(readFault);
    assert wrapper.ThrewException() && wrapper.GetThrownException() == Some(readFault);

    var closed := body.Close();
    assert closed == Fail(closeFault);
    assert wrapper.GetThrownException() == Some(closeFault);
  }

  /** A close that succeeds, then a read that okio refuses with an unchecked
      IllegalStateException: it reaches the caller, and nothing is recorded. */
  method ReadAfterCloseIsNotRecorded()
  {
    var closedState := new RuntimeException("closed");
    var script := Okio.Script(
      _ => Ok(true),
      (_, _) => Ok(()),
      _ => Unchecked(closedState),
      _ => Ok(""),
      (_, _, _) => Ok(-1),
      _ => Ok(()));
    var buffer := new Okio.Buffer();
    var stream := new Okio.InputStream();
    var timeout := new Okio.Timeout();
    var source := new Okio.BufferedSource(script, buffer, stream, timeout);
    var input := new TypedInput("text/plain", 0, Ok(source));
    var wrapper := new ExceptionCatchingTypedInput(input, source);

    var body := wrapper.In();
    var closed := body.Close();
    assert closed == Ok(());
    var b := body.ReadByte();
    assert b == Unchecked(closedState);
    assert !wrapper.ThrewException() && wrapper.GetThrownException() == None;
  }
}
