# android-bluetooth-serial: registry, serial device and listener facade in Dafny

This project models the library part of android-bluetooth-serial (package
`com.harrysoft.androidbluetoothserial`), in all three of its revisions: the
older concrete Java classes `BluetoothSerialDevice` and
`SimpleBluetoothDeviceInterface`, the Java `*Impl` classes and the Kotlin
`*Impl` classes. It has three parts.

- **BluetoothManager** (`manager.dfy`, module `Manager`): the registry. It
  maps a MAC address to an open serial device. `openSerialDevice` returns a
  stored device without touching the transport; otherwise it connects, stores
  the new device and returns it, or wraps the failure in a
  `BluetoothConnectException` and stores nothing. `closeDevice` removes one
  entry and closes that device. `close` closes every device, swallowing
  failures, and then empties the map. The class invariant `Valid` says that
  every device is stored under its own MAC address and is open.
- **BluetoothSerialDevice** (`devices.dfy`, module `Devices`): one
  connection. It is a two-state machine, open then closed, with a `closed`
  flag that never resets. `send`, `openMessageStream` and
  `toSimpleDeviceInterface` fail at once when the device is closed. A
  deferred write is skipped if the device closed in the meantime. `close`
  tears the connection down once and then closes and forgets the facade it
  owns. The read loop of `openMessageStream` is in `message_stream.dfy`
  (module `MessageStream`). It is specified by the function `Signals`, and
  both the Java loop (`break`) and the Kotlin loop (fall-through) are proved
  to produce exactly that.
- **SimpleBluetoothDeviceInterface** (`devices.dfy`): the listener facade.
  It has three optional listener slots, and the last writer wins. It
  subscribes to the device's stream when it is created. `sendMessage`
  reports the original message to the sent-listener, or the error to the
  error-listener. `close` only disposes the subscriptions.

Modelling choices:

- The Bluetooth transport is an oracle. `openSerialDevice` takes a
  `connect: Outcome<Cause>` that says whether getting the remote device,
  creating the socket, connecting and building the device succeed, or which
  exception one of them throws.
- An output-stream write is also an oracle (`io`), and so is the teardown
  (`TeardownFault`: which `close()` call throws, if any).
- Reads are a script of `readLine` results: a line, `null` or an exception.
  Other threads can cancel the subscription or close the device. Both flags
  only go from false to true, so one number `stopAt` describes them: the
  first point at which the loop sees either flag set. Point 2k is the
  loop-head check before read k. Point 2k+1 is the catch-block check after
  read k.
- RxJava scheduling is flattened into synchronous steps. A `Completable` is
  a value (`PendingWrite`) that `RunWrite` performs. The facade's stream
  subscriber is `Deliver`, called once per emitter signal. Like an RxJava
  subscriber, it takes nothing after `onError` or `onComplete`, or after
  the facade is disposed.
- Listener calls go to a ghost log (`dispatched`) as (listener, event)
  pairs. Writes go to a ghost log (`written`) as (message, charset) pairs.
  The close calls made by a teardown go to a ghost log (`teardown`).
- How the revisions differ:
  - Exception type: `ClosedError` gives `IllegalArgumentException` for the
    older Java class and `IllegalStateException` for both `*Impl` classes.
  - Charset: the older class writes with the platform default
    (`GetInstance` sets `PlatformDefault`). The `*Impl` classes write with
    the configured charset.
  - `closeDevice` on a close failure: the Kotlin registry lets the failure
    escape, the Java registry catches it.
  - The read loops: Java uses `break`, Kotlin falls through.
- What the code does where a reader might expect otherwise:
  - Teardown is not guarded step by step. If the input stream's `close()`
    throws, the output stream and the socket are not closed, and `close`
    throws (as its Javadoc says). The exception leaves `close` before the
    owned facade is closed, so the device is closed but keeps its `owner`
    until `close` is called again.
  - A write skipped because the device closed in the meantime completes
    normally; it is not reported as an error.
  - An end of stream (`null`) does not end the read loop. The loop ends only
    when it sees the cancel or close flag.
  - The loop has no `break` after `onError`. Whether the emitter already
    counts as cancelled at the next check (so the loop stops there) or only
    later is left open: `stopAt` ranges over both cases, and the facade's
    subscriber takes nothing after the first error either way.
- `getMac` / `mac` and `getDevice` / `device` are the const fields
  `mac` and `device`.

## Model

| member | source | states |
|---|---|---|
| Common.ClosedError | androidBluetoothSerial/src/main/java/com/harrysoft/androidbluetoothserial/BluetoothSerialDevice.java:114-118 | a closed device throws "Device connection closed"; an IllegalArgumentException exactly for the older Java class, an IllegalStateException for the Impl revisions |
| MessageStream.ReadsPerformed | androidBluetoothSerial/src/main/java/com/harrysoft/androidbluetoothserial/BluetoothSerialDeviceImpl.kt:42 | the loop reads at most the whole script, and only while its loop-head check sees neither cancel nor close |
| MessageStream.NonEmptyLines | androidBluetoothSerial/src/main/java/com/harrysoft/androidbluetoothserial/BluetoothSerialDeviceImpl.kt:46 | the lines kept by the TextUtils.isEmpty filter are never empty |
| MessageStream.ItemsAreNonEmptyLines | androidBluetoothSerial/src/main/java/com/harrysoft/androidbluetoothserial/BluetoothSerialDeviceImpl.kt:45-48 | onNext receives exactly the non-null, non-empty lines among the reads performed, in read order; null and empty lines are dropped and the loop continues |
| MessageStream.ErrorReportedIffLive | androidBluetoothSerial/src/main/java/com/harrysoft/androidbluetoothserial/BluetoothSerialDeviceImpl.java:71-77 | a read failure reaches onError if and only if neither cancel nor close is seen in the catch block; a failure racing with close or cancel is swallowed |
| MessageStream.CompletesIffStopped | androidBluetoothSerial/src/main/java/com/harrysoft/androidbluetoothserial/BluetoothSerialDeviceImpl.kt:42-56 | onComplete is emitted if and only if the loop sees cancel or close, and then it is the last emitter call |
| MessageStream.ReadsAfterStopIgnored | androidBluetoothSerial/src/main/java/com/harrysoft/androidbluetoothserial/BluetoothSerialDevice.java:58-74 | once the loop has seen the stop, no later read affects what is emitted |
| MessageStream.JavaReadLoop | androidBluetoothSerial/src/main/java/com/harrysoft/androidbluetoothserial/BluetoothSerialDeviceImpl.java:62-81 | the Java loop with break emits exactly Signals(script, stopAt) |
| MessageStream.KotlinReadLoop | androidBluetoothSerial/src/main/java/com/harrysoft/androidbluetoothserial/BluetoothSerialDeviceImpl.kt:40-57 | the Kotlin loop without break emits exactly Signals(script, stopAt), so it behaves the same as the Java loop |
| Devices.TeardownCalls | androidBluetoothSerial/src/main/java/com/harrysoft/androidbluetoothserial/BluetoothSerialDeviceImpl.kt:61-66 | teardown closes input stream, output stream and socket in that order, and stops at the first close() that throws |
| Devices.Notify | androidBluetoothSerial/src/main/java/com/harrysoft/androidbluetoothserial/SimpleBluetoothDeviceInterfaceImpl.java:51-77 | a listener is called only if its slot is set, once, with the event; an empty slot drops the event |
| Devices.BluetoothSerialDevice.constructor | androidBluetoothSerial/src/main/java/com/harrysoft/androidbluetoothserial/BluetoothSerialDeviceImpl.java:39-45 | a new Impl device has the given MAC address and charset, is open, owns no facade and has written nothing |
| Devices.BluetoothSerialDevice.GetInstance | androidBluetoothSerial/src/main/java/com/harrysoft/androidbluetoothserial/BluetoothSerialDevice.java:36-38 | the older class's device is open and uses the platform default charset |
| Devices.BluetoothSerialDevice.CheckNotClosed | androidBluetoothSerial/src/main/java/com/harrysoft/androidbluetoothserial/BluetoothSerialDeviceImpl.kt:82-84 | throws if and only if the device is closed, with the revision's exception |
| Devices.BluetoothSerialDevice.Send | androidBluetoothSerial/src/main/java/com/harrysoft/androidbluetoothserial/BluetoothSerialDeviceImpl.java:49-56 | fails at once if and only if closed; otherwise returns the deferred write of exactly the given message |
| Devices.BluetoothSerialDevice.RunWrite | androidBluetoothSerial/src/main/java/com/harrysoft/androidbluetoothserial/BluetoothSerialDeviceImpl.kt:31-35 | the deferred write appends the message encoded with the device charset only if the device is still open; when skipped it writes nothing and completes normally; a write error is passed on |
| Devices.BluetoothSerialDevice.OpenMessageStream | androidBluetoothSerial/src/main/java/com/harrysoft/androidbluetoothserial/BluetoothSerialDeviceImpl.kt:38-58 | fails at once if and only if closed; otherwise the emitter receives Signals(script, stopAt) through this revision's loop |
| Devices.BluetoothSerialDevice.Close | androidBluetoothSerial/src/main/java/com/harrysoft/androidbluetoothserial/BluetoothSerialDeviceImpl.java:89-104 | sets closed for good; the first call makes the teardown calls once, later calls make none; nothing is written; unless teardown threw, the owned facade is disposed and owner becomes null, otherwise the facade stays owned and undisposed; the facade changes in nothing but `disposed`, so no listener is called |
| Devices.BluetoothSerialDevice.ToSimpleDeviceInterface | androidBluetoothSerial/src/main/java/com/harrysoft/androidbluetoothserial/BluetoothSerialDeviceImpl.kt:71-77 | fails when closed; otherwise returns the facade already owned, or creates a fresh facade for this device, owns it and returns it |
| Devices.SimpleBluetoothDeviceInterface.constructor | androidBluetoothSerial/src/main/java/com/harrysoft/androidbluetoothserial/SimpleBluetoothDeviceInterfaceImpl.kt:17-22 | wraps the given open device with all slots empty and one subscription, the message stream |
| Devices.SimpleBluetoothDeviceInterface.SendMessage | androidBluetoothSerial/src/main/java/com/harrysoft/androidbluetoothserial/SimpleBluetoothDeviceInterfaceImpl.kt:24-30 | fails before subscribing anything if the device is closed; on a disposed facade the new subscription is not kept and nothing is written or reported; otherwise adds a subscription, writes the message and reports the original message to the sent-listener, or the write error to the error-listener |
| Devices.SimpleBluetoothDeviceInterface.Deliver | androidBluetoothSerial/src/main/java/com/harrysoft/androidbluetoothserial/SimpleBluetoothDeviceInterfaceImpl.java:28-35 | an item goes to the received-listener and an error to the error-listener current at delivery; nothing is delivered after onError, onComplete or disposal |
| Devices.SimpleBluetoothDeviceInterface.OnReceivedMessage | androidBluetoothSerial/src/main/java/com/harrysoft/androidbluetoothserial/SimpleBluetoothDeviceInterfaceImpl.java:51-55 | calls the received-listener with the message if one is set, otherwise nothing |
| Devices.SimpleBluetoothDeviceInterface.OnSentMessage | androidBluetoothSerial/src/main/java/com/harrysoft/androidbluetoothserial/SimpleBluetoothDeviceInterfaceImpl.java:62-66 | calls the sent-listener with the message if one is set, otherwise nothing |
| Devices.SimpleBluetoothDeviceInterface.OnError | androidBluetoothSerial/src/main/java/com/harrysoft/androidbluetoothserial/SimpleBluetoothDeviceInterfaceImpl.java:73-77 | calls the error-listener with the error if one is set, otherwise nothing |
| Devices.SimpleBluetoothDeviceInterface.SetListeners | androidBluetoothSerial/src/main/java/com/harrysoft/androidbluetoothserial/SimpleBluetoothDeviceInterfaceImpl.kt:32-38 | overwrites all three slots, an empty value included |
| Devices.SimpleBluetoothDeviceInterface.SetMessageReceivedListener | androidBluetoothSerial/src/main/java/com/harrysoft/androidbluetoothserial/SimpleBluetoothDeviceInterfaceImpl.kt:40-42 | overwrites the received slot and no other |
| Devices.SimpleBluetoothDeviceInterface.SetMessageSentListener | androidBluetoothSerial/src/main/java/com/harrysoft/androidbluetoothserial/SimpleBluetoothDeviceInterfaceImpl.kt:44-46 | overwrites the sent slot and no other |
| Devices.SimpleBluetoothDeviceInterface.SetErrorListener | androidBluetoothSerial/src/main/java/com/harrysoft/androidbluetoothserial/SimpleBluetoothDeviceInterfaceImpl.kt:48-50 | overwrites the error slot and no other |
| Devices.SimpleBluetoothDeviceInterface.Close | androidBluetoothSerial/src/main/java/com/harrysoft/androidbluetoothserial/SimpleBluetoothDeviceInterfaceImpl.kt:52-54 | disposes the subscriptions and changes nothing else: listener slots, subscriptions, stream state, listener calls and the device are as they were |
| Manager.BluetoothManager.constructor | androidBluetoothSerial/src/main/java/com/harrysoft/androidbluetoothserial/BluetoothManagerImpl.java:26-33 | a new registry is empty and valid |
| Manager.BluetoothManager.OpenSerialDevice | androidBluetoothSerial/src/main/java/com/harrysoft/androidbluetoothserial/BluetoothManagerImpl.kt:23-41 | a stored MAC address yields the stored device with no connect attempt and the charset ignored; otherwise one connect attempt; on success a fresh open device for this MAC address and charset is stored under that key and returned; on failure the cause comes back wrapped and the map is unchanged |
| Manager.BluetoothManager.OpenSerialDeviceUtf8 | androidBluetoothSerial/src/main/java/com/harrysoft/androidbluetoothserial/BluetoothManagerImpl.kt:19-21 | the same contract as OpenSerialDevice with the charset UTF-8 |
| Manager.BluetoothManager.CloseDevice | androidBluetoothSerial/src/main/java/com/harrysoft/androidbluetoothserial/BluetoothManagerImpl.kt:43-45 | removes exactly the given key and closes the removed device once (ClosedOnce: teardown made, nothing written, owned facade disposed and forgotten unless teardown threw, no listener called); an unknown key changes nothing; the entry stays removed when close fails, which Kotlin propagates and Java swallows; other entries and their devices are unchanged |
| Manager.BluetoothManager.CloseDeviceOf | androidBluetoothSerial/src/main/java/com/harrysoft/androidbluetoothserial/BluetoothManagerImpl.kt:47-49 | the CloseDevice contract on the device's MAC address, owned facade disposal included |
| Manager.BluetoothManager.CloseDeviceOfInterface | androidBluetoothSerial/src/main/java/com/harrysoft/androidbluetoothserial/BluetoothManagerImpl.kt:51-53 | the CloseDevice contract on the MAC address of the facade's device: a clean close disposes that facade |
| Manager.BluetoothManager.Close | androidBluetoothSerial/src/main/java/com/harrysoft/androidbluetoothserial/BluetoothManagerImpl.java:91-99 | every stored device is closed once (ClosedOnce for its own fault: teardown made, nothing written, its facade disposed unless its teardown threw), whatever the others' failures; the map is empty afterwards |

## Left out

- The Android Bluetooth transport: `getRemoteDevice`,
  `createInsecureRfcommSocketToServiceRecord` with the SPP UUID,
  `cancelDiscovery`, `socket.connect`, `getBondedDevices` /
  `pairedDevices` / `getPairedDevicesList` and
  `BluetoothAdapter.getDefaultAdapter`. They are platform calls. One
  success-or-failure oracle per open stands in for them.
- The manager singletons (`BluetoothManager.instance`,
  `BluetoothManager.getInstance`). They are platform lookups.
- RxJava machinery: laziness, `subscribeOn`/`observeOn` thread hops,
  `BackpressureStrategy.BUFFER` and `CompositeDisposable` internals. Each
  is flattened into a synchronous step.
- Concurrency: `synchronized` blocks, `AtomicBoolean`, and the
  non-atomic check-then-set in `close`. The model is sequential, and no lock
  properties are proved.
- Charset encoding and decoding, and `BufferedReader.readLine` framing
  (which also ends lines at `\r` and `\r\n`). A message is an opaque
  string, a write is the pair (message, charset), and reads are a script.
- The raw stream accessors `getInputStream`, `inputStream` and
  `outputStream`. They expose streams and carry no logic.
- The demo application. It is UI and lifecycle glue.
- Manager.BluetoothManager.OpenSerialDevice: does not model the window
  between the eager cache check and the deferred insert (RxJava laziness).
  The open is one atomic step.
- Devices.BluetoothSerialDevice.RunWrite: does not model a partial write
  before an I/O error. A failed write records nothing.
- The Java registry's `printStackTrace` of a swallowed close failure in
  `closeDevice`. It is logging output only.
- Devices.SimpleBluetoothDeviceInterface.SendMessage: completes each send at
  once. Several sends in flight, and their completion order, are not
  modelled. A send on a disposed facade writes and reports nothing: the
  model lets the dispose win the race with the scheduled write.
- Devices.SimpleBluetoothDeviceInterface.constructor: requires an open
  device instead of modelling the throw from `openMessageStream`. Only
  `toSimpleDeviceInterface` creates a facade, and it checks this first.
- Devices.BluetoothSerialDevice.OpenMessageStream: runs the stream at once
  for one script. Who subscribes, and when, is not modelled. A script that
  runs out while the loop is live stands for a `readLine` that blocks, so
  no completion is emitted.
