/**
 * A serial device (one open RFCOMM connection) and the listener facade it
 * hands out. The two reference each other: the device memoises its facade in
 * `owner`, the facade keeps the device it wraps. All three revisions share
 * this model; a device records which one it is in `revision`.
 */
module Devices {
  import opened Common
  import opened MessageStream

  /** The identity of a listener object registered with a facade. */
  type ListenerId = nat

  /** The three things a device closes when it is torn down, in the order it closes them. */
  datatype Resource = InputStream | OutputStream | Socket

  const FullTeardown: seq<Resource> := [InputStream, OutputStream, Socket]

  /** Whether one of the close() calls of a teardown throws, and which. */
  datatype TeardownFault = NoFault | CloseFails(resource: Resource, cause: Cause)

  /**
   * The close() calls a first close makes: input stream, output stream,
   * socket, up to and including the first one that throws (its exception
   * leaves close at once).
   */
  function TeardownCalls(fault: TeardownFault): (calls: seq<Resource>)
    ensures calls != [] && calls <= FullTeardown
    ensures fault.NoFault? ==> calls == FullTeardown
    ensures fault.CloseFails? ==> calls[|calls| - 1] == fault.resource
  {
    match fault
    case NoFault => FullTeardown
    case CloseFails(InputStream, _) => [InputStream]
    case CloseFails(OutputStream, _) => [InputStream, OutputStream]
    case CloseFails(Socket, _) => FullTeardown
  }

  /** The bytes `message` encoded with `charset`, as handed to the output stream. */
  datatype Write = Write(message: string, charset: Charset)

  /** The Completable that `send` returns: the write it will perform when it runs. */
  datatype PendingWrite = PendingWrite(message: string)

  /** What a facade reports to one of its listeners. */
  datatype Event = MessageReceived(message: string) | MessageSent(message: string) | ErrorOccurred(cause: Cause)

  /** A call of a listener: which listener, with what. */
  datatype Dispatch = Dispatch(listener: ListenerId, event: Event)

  /** Calling the listener in a slot, if there is one: an empty slot drops the event. */
  function Notify(slot: Option<ListenerId>, event: Event): (calls: seq<Dispatch>)
    ensures |calls| <= 1
    ensures calls != [] <==> slot.Some?
    ensures forall d | d in calls :: d.listener == slot.value && d.event == event
  {
    if slot.Some? then [Dispatch(slot.value, event)] else []
  }

  class BluetoothSerialDevice {
    const mac: string
    const charset: Charset
    const revision: Revision

    /** Set once by the first close and never reset. */
    var closed: bool

    /** The facade this device created, if any; cleared by close. */
    var owner: SimpleBluetoothDeviceInterface?

    /** The close() calls made on the streams and the socket, in order. */
    ghost var teardown: seq<Resource>

    /** What was written to the output stream, in order. */
    ghost var written: seq<Write>

    ghost predicate Valid()
      reads this
    {
      && (owner != null ==> owner.device == this)
      && (closed <==> teardown != [])
      && teardown <= FullTeardown
    }

    /** The constructor of the `*Impl` revisions, with the charset the registry was asked for. */
    constructor (mac: string, charset: Charset, revision: Revision)
      requires revision != LegacyJava
      ensures Valid()
      ensures this.mac == mac && this.charset == charset && this.revision == revision
      ensures !closed && owner == null && teardown == [] && written == []
    {
      this.mac := mac;
      this.charset := charset;
      this.revision := revision;
      closed := false;
      owner := null;
      teardown := [];
      written := [];
    }

    /** `getInstance` of the older Java class, which encodes with the platform default charset. */
    constructor GetInstance(mac: string)
      ensures Valid()
      ensures this.mac == mac && charset == PlatformDefault && revision == LegacyJava
      ensures !closed && owner == null && teardown == [] && written == []
    {
      this.mac := mac;
      charset := PlatformDefault;
      revision := LegacyJava;
      closed := false;
      owner := null;
      teardown := [];
      written := [];
    }

    /** `checkNotClosed` (`requireNotClosed` in the older Java class). */
    method CheckNotClosed() returns (r: Outcome<ClosedException>)
      ensures r.Fail? <==> closed
      ensures r.Fail? ==> r.error == ClosedError(revision)
    {
      if closed {
        r := Fail(ClosedError(revision));
      } else {
        r := Pass;
      }
    }

    /**
     * `send`: fails at once on a closed device, otherwise returns the deferred
     * write of exactly `message`, which RunWrite performs.
     */
    method Send(message: string) returns (r: Result<PendingWrite, ClosedException>)
      ensures r.Err? <==> closed
      ensures r.Err? ==> r.error == ClosedError(revision)
      ensures r.Ok? ==> r.value.message == message
    {
      var check := CheckNotClosed();
      if check.Fail? {
        return Err(check.error);
      }
      r := Ok(PendingWrite(message));
    }

    /**
     * The action of the Completable that `send` returned. It writes only if
     * the device is still open when it runs; a skipped write completes
     * normally. `io` says whether the output stream's write throws.
     */
    method RunWrite(w: PendingWrite, io: Outcome<Cause>) returns (r: Outcome<Cause>)
      modifies this`written
      ensures old(closed) ==> r == Pass && written == old(written)
      ensures !old(closed) && io.Pass? ==> r == Pass && written == old(written) + [Write(w.message, charset)]
      ensures !old(closed) && io.Fail? ==> r == io && written == old(written)
    {
      if !closed {
        if io.Fail? {
          return io;
        }
        written := written + [Write(w.message, charset)];
      }
      r := Pass;
    }

    /**
     * `openMessageStream` followed by one run of the stream's read loop: it
     * fails at once on a closed device, otherwise the emitter receives what the
     * loop of this revision emits for the reads in `script`, stopped at
     * observation point `stopAt`.
     */
    method OpenMessageStream(script: seq<ReadResult>, stopAt: nat) returns (r: Result<seq<Signal>, ClosedException>)
      ensures r.Err? <==> closed
      ensures r.Err? ==> r.error == ClosedError(revision)
      ensures r.Ok? ==> r.value == Signals(script, stopAt)
    {
      var check := CheckNotClosed();
      if check.Fail? {
        return Err(check.error);
      }
      var signals;
      if revision == ImplKotlin {
        signals := KotlinReadLoop(script, stopAt);
      } else {
        signals := JavaReadLoop(script, stopAt);
      }
      r := Ok(signals);
    }

    /**
     * `close`: the first call sets `closed` and then closes the input stream,
     * the output stream and the socket, stopping at the first of those that
     * throws; later calls do no teardown. Unless a teardown call threw, it
     * then closes the facade it owns and forgets it.
     */
    method Close(fault: TeardownFault) returns (r: Outcome<Cause>)
      requires Valid()
      modifies this, owner
      ensures Valid() && closed
      ensures written == old(written)
      ensures old(closed) ==> r == Pass && teardown == old(teardown)
      ensures !old(closed) ==> teardown == TeardownCalls(fault)
      ensures !old(closed) ==> r == (if fault.NoFault? then Pass else Fail(fault.cause))
      ensures r.Pass? ==> owner == null && (old(owner) != null ==> old(owner).disposed)
      ensures r.Fail? ==> owner == old(owner) && (owner != null ==> owner.disposed == old(owner.disposed))
      ensures old(owner) != null ==> old(owner).OnlyDisposedChanged()
    {
      if !closed {
        closed := true;
        teardown := teardown + [InputStream];
        if fault.CloseFails? && fault.resource == InputStream {
          return Fail(fault.cause);
        }
        teardown := teardown + [OutputStream];
        if fault.CloseFails? && fault.resource == OutputStream {
          return Fail(fault.cause);
        }
        teardown := teardown + [Socket];
        if fault.CloseFails? && fault.resource == Socket {
          return Fail(fault.cause);
        }
      }
      if owner != null {
        owner.Close();
        owner := null;
      }
      r := Pass;
    }

    /**
     * `toSimpleDeviceInterface`: fails on a closed device; otherwise returns
     * the facade it already owns, or creates one, owns it and returns it.
     */
    method ToSimpleDeviceInterface() returns (r: Result<SimpleBluetoothDeviceInterface, ClosedException>)
      requires Valid()
      modifies this`owner
      ensures Valid()
      ensures old(closed) ==> r == Err(ClosedError(revision)) && owner == old(owner)
      ensures !old(closed) && old(owner) != null ==> r.Ok? && r.value == old(owner) && owner == old(owner)
      ensures !old(closed) && old(owner) == null ==>
        && r.Ok? && fresh(r.value) && owner == r.value && r.value.device == this
        && r.value.NoListeners() && r.value.subscriptions == 1
        && !r.value.disposed && !r.value.streamTerminated && r.value.dispatched == []
    {
      var check := CheckNotClosed();
      if check.Fail? {
        return Err(check.error);
      }
      if owner != null {
        return Ok(owner);
      }
      owner := new SimpleBluetoothDeviceInterface(this);
      r := Ok(owner);
    }
  }

  class SimpleBluetoothDeviceInterface {
    const device: BluetoothSerialDevice

    var messageReceivedListener: Option<ListenerId>
    var messageSentListener: Option<ListenerId>
    var errorListener: Option<ListenerId>

    /** The subscriptions added to the composite disposable. */
    var subscriptions: nat

    /** Whether the composite disposable was disposed (by close). */
    var disposed: bool

    /** Whether the message-stream subscriber has received onError or onComplete. */
    var streamTerminated: bool

    /** The listener calls made, in order. */
    ghost var dispatched: seq<Dispatch>

    predicate NoListeners()
      reads this
    {
      messageReceivedListener.None? && messageSentListener.None? && errorListener.None?
    }

    /**
     * Between the two states at most `disposed` changed: the listener slots,
     * the subscriptions, the stream state and the listener calls made are as
     * they were, so no listener was called.
     */
    twostate predicate OnlyDisposedChanged()
      reads this
    {
      && messageReceivedListener == old(messageReceivedListener)
      && messageSentListener == old(messageSentListener)
      && errorListener == old(errorListener)
      && subscriptions == old(subscriptions)
      && streamTerminated == old(streamTerminated)
      && dispatched == old(dispatched)
    }

    /**
     * Subscribes to the device's message stream at once; the stream's items
     * and errors arrive through Deliver. Only a device that is open (it has
     * just checked) creates a facade.
     */
    constructor (device: BluetoothSerialDevice)
      requires !device.closed
      ensures this.device == device
      ensures NoListeners() && subscriptions == 1
      ensures !disposed && !streamTerminated && dispatched == []
    {
      this.device := device;
      messageReceivedListener := None;
      messageSentListener := None;
      errorListener := None;
      subscriptions := 1;
      disposed := false;
      streamTerminated := false;
      dispatched := [];
    }

    /**
     * `sendMessage`: fails at once on a closed device. Otherwise, unless this
     * facade is already disposed (its composite then disposes the new
     * subscription at once), it subscribes to the device's send and reports
     * the original message to the sent-listener when the write succeeds or the
     * write's error to the error-listener when it fails.
     */
    method SendMessage(message: string, io: Outcome<Cause>) returns (r: Outcome<ClosedException>)
      modifies this`subscriptions, this`dispatched, device`written
      ensures r.Fail? <==> device.closed
      ensures r.Fail? ==> r.error == ClosedError(device.revision)
      ensures r.Fail? ==> subscriptions == old(subscriptions) && dispatched == old(dispatched)
      ensures r.Fail? || disposed ==> device.written == old(device.written)
      ensures r.Pass? && !disposed ==> subscriptions == old(subscriptions) + 1
      ensures r.Pass? && disposed ==> subscriptions == old(subscriptions)
      ensures r.Pass? && disposed ==> dispatched == old(dispatched)
      ensures r.Pass? && !disposed && io.Pass? ==>
        && device.written == old(device.written) + [Write(message, device.charset)]
        && dispatched == old(dispatched) + Notify(messageSentListener, MessageSent(message))
      ensures r.Pass? && !disposed && io.Fail? ==>
        && device.written == old(device.written)
        && dispatched == old(dispatched) + Notify(errorListener, ErrorOccurred(io.error))
    {
      r := device.CheckNotClosed();
      if r.Fail? {
        return;
      }
      var pending := device.Send(message);
      if disposed {
        // a disposed composite disposes what is added to it instead of keeping it
        return;
      }
      subscriptions := subscriptions + 1;
      if pending.Ok? {
        var sent := device.RunWrite(pending.value, io);
        if sent.Pass? {
          OnSentMessage(message);
        } else {
          OnError(sent.error);
        }
      }
    }

    /**
     * The subscriber of the message stream: an item goes to the received-listener
     * and an error to the error-listener current at delivery time. After onError
     * or onComplete, or once this facade is disposed, nothing more is delivered.
     */
    method Deliver(signal: Signal)
      modifies this`streamTerminated, this`dispatched
      ensures old(disposed || streamTerminated) ==> streamTerminated == old(streamTerminated) && dispatched == old(dispatched)
      ensures !old(disposed || streamTerminated) && signal.Next? ==>
        && !streamTerminated
        && dispatched == old(dispatched) + Notify(messageReceivedListener, MessageReceived(signal.item))
      ensures !old(disposed || streamTerminated) && signal.Error? ==>
        && streamTerminated
        && dispatched == old(dispatched) + Notify(errorListener, ErrorOccurred(signal.cause))
      ensures !old(disposed || streamTerminated) && signal.Complete? ==>
        streamTerminated && dispatched == old(dispatched)
    {
      if disposed || streamTerminated {
        return;
      }
      match signal {
        case Next(item) =>
          OnReceivedMessage(item);
        case Error(cause) =>
          streamTerminated := true;
          OnError(cause);
        case Complete =>
          streamTerminated := true;
      }
    }

    method OnReceivedMessage(message: string)
      modifies this`dispatched
      ensures dispatched == old(dispatched) + Notify(messageReceivedListener, MessageReceived(message))
    {
      dispatched := dispatched + Notify(messageReceivedListener, MessageReceived(message));
    }

    method OnSentMessage(message: string)
      modifies this`dispatched
      ensures dispatched == old(dispatched) + Notify(messageSentListener, MessageSent(message))
    {
      dispatched := dispatched + Notify(messageSentListener, MessageSent(message));
    }

    method OnError(cause: Cause)
      modifies this`dispatched
      ensures dispatched == old(dispatched) + Notify(errorListener, ErrorOccurred(cause))
    {
      dispatched := dispatched + Notify(errorListener, ErrorOccurred(cause));
    }

    /** Replaces all three listeners; None clears a slot. */
    method SetListeners(received: Option<ListenerId>, sent: Option<ListenerId>, error: Option<ListenerId>)
      modifies this`messageReceivedListener, this`messageSentListener, this`errorListener
      ensures messageReceivedListener == received && messageSentListener == sent && errorListener == error
    {
      messageReceivedListener := received;
      messageSentListener := sent;
      errorListener := error;
    }

    method SetMessageReceivedListener(listener: Option<ListenerId>)
      modifies this`messageReceivedListener
      ensures messageReceivedListener == listener
    {
      messageReceivedListener := listener;
    }

    method SetMessageSentListener(listener: Option<ListenerId>)
      modifies this`messageSentListener
      ensures messageSentListener == listener
    {
      messageSentListener := listener;
    }

    method SetErrorListener(listener: Option<ListenerId>)
      modifies this`errorListener
      ensures errorListener == listener
    {
      errorListener := listener;
    }

    /** Disposes the subscriptions; the device stays as it is. */
    method Close()
      modifies this`disposed
      ensures disposed && OnlyDisposedChanged()
      ensures unchanged(device)
    {
      disposed := true;
    }
  }
}
