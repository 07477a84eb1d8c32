/** The device session of tapWindows/tuntap.c: the TapData record that openTun
    fills in (lines 54-60, 202-262), close (264-271), and the blocking write
    and read built on one reused OVERLAPPED slot per direction (273-313).

    Win32 objects are values: a file handle names the path it was opened on,
    an event is an id, and an OVERLAPPED slot records its offsets, its event
    and whether the operation last submitted through it is still in flight.
    What the operating system reports (CreateFile succeeding, a write still
    running when polled, a read going pending, the bytes it delivers) arrives
    as an oracle or a parameter. */
module Session {
  import opened Common
  import opened Discovery
  import opened OpenPolicy

  const FILE_DEVICE_UNKNOWN: nat := 0x22
  const METHOD_BUFFERED: nat := 0
  const FILE_ANY_ACCESS: nat := 0

  /** TAP_CONTROL_CODE(request, method): the Windows CTL_CODE layout with
      device type FILE_DEVICE_UNKNOWN and FILE_ANY_ACCESS. Every field can be
      read back from the code. */
  function TapControlCode(request: nat, transfer: nat): (code: nat)
    requires request < 0x1000 && transfer < 4
    ensures code % 4 == transfer
    ensures code / 4 % 0x1000 == request
    ensures code / 0x4000 % 4 == FILE_ANY_ACCESS
    ensures code / 0x10000 == FILE_DEVICE_UNKNOWN
  {
    FILE_DEVICE_UNKNOWN * 0x10000 + FILE_ANY_ACCESS * 0x4000 + request * 4 + transfer
  }

  const TAP_IOCTL_SET_MEDIA_STATUS: nat := TapControlCode(6, METHOD_BUFFERED)

  datatype Event = Event(id: nat)

  /** A CreateFile result: INVALID_HANDLE_VALUE or a handle on `path`. */
  datatype Handle = InvalidHandleValue | FileHandle(path: string)

  /** The state of the operation last submitted through an OVERLAPPED slot.
      `Uninitialised` is the malloc'd slot no operation has used yet. */
  datatype IoState = Uninitialised | Settled | InFlight

  datatype Overlapped = Overlapped(offset: nat, offsetHigh: nat, hEvent: Event, internal: IoState)

  /** A DeviceIoControl request: its control code and its integer input. */
  datatype ControlRequest = ControlRequest(code: nat, input: int)

  /** Kernel objects a session has created and not yet closed. */
  datatype KernelObject = FileObject(path: string) | EventObject(event: Event)

  /** A slot set up by openTun: zero offsets (the device is not seekable) and
      its own direction's event. */
  predicate BoundTo(slot: Overlapped, e: Event)
  {
    slot.offset == 0 && slot.offsetHigh == 0 && slot.hEvent == e
  }

  /** The slot once its previous operation is over (observed complete by a
      poll, or waited for). */
  function Settle(slot: Overlapped): (r: Overlapped)
    ensures r.internal != InFlight
    ensures r.(internal := slot.internal) == slot
  {
    if slot.internal == InFlight then slot.(internal := Settled) else slot
  }

  /** ReadFile/WriteFile submitting through `slot`. The operating system
      requires that an OVERLAPPED not be reused while its operation is in
      flight; the precondition states that rule, so every call to Submit is a
      proof that the session keeps it. */
  function Submit(slot: Overlapped, pending: bool): (r: Overlapped)
    requires slot.internal != InFlight
    ensures r.(internal := slot.internal) == slot
    ensures r.internal == InFlight <==> pending
  {
    slot.(internal := if pending then InFlight else Settled)
  }

  /** What WriteFile reports: done at once, ERROR_IO_PENDING, or another failure. */
  datatype WriteIssue = WriteCompleted | WritePending | WriteRejected

  /** The operating system's side of one write call: whether the previous
      write is still running when polled, and how the new write is taken. */
  datatype WriteCall = WriteCall(stillRunning: bool, issue: WriteIssue)

  /** Whether a write call blocked, and the write slot afterwards. */
  datatype WriteEffect = WriteEffect(waited: bool, slot: Overlapped)

  /** GetOverlappedResult without waiting: a write in flight that is no
      longer running is observed complete; one still running stays in flight
      (the poll reports ERROR_IO_INCOMPLETE). */
  function Poll(slot: Overlapped, stillRunning: bool): (r: Overlapped)
    ensures r.internal == InFlight <==> slot.internal == InFlight && stillRunning
    ensures r.(internal := slot.internal) == slot
  {
    if slot.internal == InFlight && !stillRunning then slot.(internal := Settled) else slot
  }

  /** One write call on the write slot: poll the previous write, wait for it
      only when the poll reports it incomplete, then submit the new write and
      return. Only the wait settles a write the poll saw still running. */
  function WriteStep(slot: Overlapped, call: WriteCall): (r: WriteEffect)
    ensures r.waited <==> slot.internal == InFlight && call.stillRunning
    ensures r.slot.(internal := slot.internal) == slot
    ensures r.slot.internal == InFlight <==> call.issue == WritePending
  {
    var polled := Poll(slot, call.stillRunning);
    var incomplete := polled.internal == InFlight;
    var ready := if incomplete then Settle(polled) else polled;
    WriteEffect(incomplete, Submit(ready, call.issue == WritePending))
  }

  /** The write slot after a sequence of write calls. */
  function RunWrites(slot: Overlapped, calls: seq<WriteCall>): Overlapped
    decreases |calls|
  {
    if calls == [] then slot else RunWrites(WriteStep(slot, calls[0]).slot, calls[1..])
  }

  /** How many of a sequence of write calls blocked. */
  function WaitCount(slot: Overlapped, calls: seq<WriteCall>): nat
    decreases |calls|
  {
    if calls == [] then 0
    else
      var step := WriteStep(slot, calls[0]);
      (if step.waited then 1 else 0) + WaitCount(step.slot, calls[1..])
  }

  /** How many of a sequence of write calls left their write pending. */
  function PendingCount(calls: seq<WriteCall>): nat
    decreases |calls|
  {
    if calls == [] then 0
    else (if calls[0].issue == WritePending then 1 else 0) + PendingCount(calls[1..])
  }

  /** Each blocking wait is for a distinct earlier write that went pending:
      over any sequence of calls, the waits plus the write still in flight at
      the end never exceed the writes that went pending plus the one in flight
      at the start. */
  lemma {:induction false} WaitsAtMostOncePerPendingWrite(slot: Overlapped, calls: seq<WriteCall>)
    ensures WaitCount(slot, calls) + (if RunWrites(slot, calls).internal == InFlight then 1 else 0) <=
            PendingCount(calls) + (if slot.internal == InFlight then 1 else 0)
    decreases |calls|
  {
    if calls != [] {
      WaitsAtMostOncePerPendingWrite(WriteStep(slot, calls[0]).slot, calls[1..]);
    }
  }

  /** Write calls never change a slot's offsets or event. */
  lemma {:induction false} WritesKeepBinding(slot: Overlapped, calls: seq<WriteCall>)
    ensures RunWrites(slot, calls).(internal := slot.internal) == slot
    decreases |calls|
  {
    if calls != [] {
      WritesKeepBinding(WriteStep(slot, calls[0]).slot, calls[1..]);
    }
  }

  /** What ReadFile reports: the frame delivered at once, ERROR_IO_PENDING
      followed (after the wait) by the frame GetOverlappedResult reports, or
      another failure. */
  datatype ReadIssue = ReadCompleted(frame: seq<Byte>) | ReadPending(frame: seq<Byte>) | ReadFailed

  /** The count read returns; on a failure that is not ERROR_IO_PENDING the
      source returns an uninitialised variable. */
  datatype ReadLength = Bytes(count: nat) | Indeterminate

  /** The native TapData record of an open session. The ghost fields record
      what the device and the kernel see: the control requests issued on the
      handle, the frames handed to WriteFile in order, the kernel objects not
      yet closed, and whether the record is still allocated. */
  class TapData {
    var fd: Handle
    var readEvent: Event
    var writeEvent: Event
    var readOverlapped: Overlapped
    var writeOverlapped: Overlapped
    ghost var requests: seq<ControlRequest>
    ghost var sent: seq<seq<Byte>>
    ghost var kernelObjects: set<KernelObject>
    ghost var live: bool

    /** An armed session: an open handle, both slots bound to their events,
      no read left in flight. */
    ghost predicate Valid()
      reads this
    {
      live && fd.FileHandle? &&
      BoundTo(readOverlapped, readEvent) && BoundTo(writeOverlapped, writeEvent) &&
      readOverlapped.internal != InFlight &&
      FileObject(fd.path) in kernelObjects &&
      EventObject(readEvent) in kernelObjects && EventObject(writeEvent) in kernelObjects
    }

    /** malloc(sizeof(TapData)): nothing is initialised yet. The source's
      fields are indeterminate here; the model picks InvalidHandleValue and
      event 0, and nothing depends on those choices. */
    constructor Allocate()
      ensures fd == InvalidHandleValue && !live
      ensures readOverlapped.internal == Uninitialised && writeOverlapped.internal == Uninitialised
      ensures requests == [] && sent == [] && kernelObjects == {}
    {
      fd := InvalidHandleValue;
      readEvent, writeEvent := Event(0), Event(0);
      readOverlapped := Overlapped(0, 0, Event(0), Uninitialised);
      writeOverlapped := Overlapped(0, 0, Event(0), Uninitialised);
      requests, sent, kernelObjects := [], [], {};
      live := false;
    }

    /** The steps of openTun after the device opened: the media-status
      request, the events bound to their slots with zero offsets. */
    method Arm(readEvt: Event, writeEvt: Event)
      requires fd.FileHandle? && !live && requests == [] && sent == [] && kernelObjects == {}
      requires readOverlapped.internal == Uninitialised && writeOverlapped.internal == Uninitialised
      modifies this
      ensures Valid() && fd == old(fd) && sent == []
      ensures requests == [ControlRequest(TAP_IOCTL_SET_MEDIA_STATUS, 1)]
      ensures readEvent == readEvt && writeEvent == writeEvt
      ensures readOverlapped == Overlapped(0, 0, readEvt, Uninitialised)
      ensures writeOverlapped == Overlapped(0, 0, writeEvt, Uninitialised)
      ensures kernelObjects == {FileObject(fd.path), EventObject(readEvt), EventObject(writeEvt)}
    {
      // DeviceIoControl(TAP_IOCTL_SET_MEDIA_STATUS, TRUE); its result is not consulted
      requests := requests + [ControlRequest(TAP_IOCTL_SET_MEDIA_STATUS, 1)];
      // CreateEvent for each direction
      readEvent, writeEvent := readEvt, writeEvt;
      kernelObjects := {FileObject(fd.path), EventObject(readEvt), EventObject(writeEvt)};
      readOverlapped := readOverlapped.(offset := 0, offsetHigh := 0, hEvent := readEvent);
      writeOverlapped := writeOverlapped.(offset := 0, offsetHigh := 0, hEvent := writeEvent);
      live := true;
    }

    /** close: closes the device handle and frees the record. The two events
      stay open, and a write still in flight is not waited for. */
    method Close()
      requires Valid()
      modifies this`kernelObjects, this`live
      ensures !live
      ensures kernelObjects == old(kernelObjects) - {FileObject(fd.path)}
      ensures EventObject(readEvent) in kernelObjects && EventObject(writeEvent) in kernelObjects
    {
      kernelObjects := kernelObjects - {FileObject(fd.path)};
      live := false;
    }

    /** write: wait for the previous write only if it is still incomplete,
      submit `len` bytes of `b` through the write slot, and return without
      waiting for the new write. */
    method Write(b: seq<Byte>, len: int, call: WriteCall) returns (waited: bool)
      requires Valid()
      requires 0 <= len <= |b|
      modifies this`writeOverlapped, this`sent
      ensures Valid()
      ensures WriteEffect(waited, writeOverlapped) == WriteStep(old(writeOverlapped), call)
      ensures sent == old(sent) + (if call.issue == WriteRejected then [] else [b[..len]])
    {
      writeOverlapped := Poll(writeOverlapped, call.stillRunning);
      waited := writeOverlapped.internal == InFlight;
      if waited {
        // WaitForSingleObject(write_event, INFINITE) lasts until the previous
        // write is complete
        writeOverlapped := Settle(writeOverlapped);
      }
      writeOverlapped := Submit(writeOverlapped, call.issue == WritePending);
      if call.issue != WriteRejected {
        sent := sent + [b[..len]];
      }
    }

    /** read: submit a read into `buf` through the read slot, block when it is
      pending, and return the byte count of the completed read. */
    method Read(buf: array<Byte>, issue: ReadIssue) returns (len: ReadLength, waited: bool)
      requires Valid()
      requires !issue.ReadFailed? ==> |issue.frame| <= buf.Length
      modifies this`readOverlapped, buf
      ensures Valid()
      ensures waited <==> issue.ReadPending?
      ensures len == if issue.ReadFailed? then Indeterminate else Bytes(|issue.frame|)
      ensures len.Bytes? ==> len.count <= buf.Length
      ensures issue.ReadFailed? ==> buf[..] == old(buf[..])
      ensures !issue.ReadFailed? ==> buf[..] == issue.frame + old(buf[..])[|issue.frame|..]
      ensures readOverlapped == old(readOverlapped).(internal := Settled)
    {
      readOverlapped := Submit(readOverlapped, issue.ReadPending?);
      waited := issue.ReadPending?;
      if waited {
        // WaitForSingleObject(read_event, INFINITE), then GetOverlappedResult
        readOverlapped := Settle(readOverlapped);
      }
      if issue.ReadFailed? {
        len := Indeterminate;
      } else {
        var frame := issue.frame;
        forall i | 0 <= i < |frame| {
          buf[i] := frame[i];
        }
        assert buf[..] == frame + old(buf[..])[|frame|..];
        len := Bytes(|frame|);
      }
    }
  }

  /** openTun: the exact-name pass, the retry do-while (at most `fuel`
      iterations), then arming the session: the media-status request, the two
      events from CreateEvent (`readEvt`, `writeEvt`) and both slots bound to
      them with zero offsets. The record is returned only on success; on a
      failed search it is freed. `code` is the TapResult openTun returns, or
      None while the do-while has not returned. */
  method OpenTun(reg: Registry, canOpen: string -> bool, fuel: nat, readEvt: Event, writeEvt: Event)
    returns (outcome: OpenOutcome, code: Option<int>, tap: TapData?)
    ensures outcome == OpenSpec(reg, canOpen, fuel)
    ensures code.None? <==> outcome.Looping?
    ensures code == Some(TapOk.Code()) <==> tap != null
    ensures outcome.Failed? ==> code == Some(outcome.result.Code())
    ensures tap != null <==> outcome.Opened?
    ensures tap != null ==>
              fresh(tap) && tap.Valid() &&
              tap.fd == FileHandle(TapPath(outcome.deviceId)) &&
              tap.requests == [ControlRequest(TAP_IOCTL_SET_MEDIA_STATUS, 1)] &&
              tap.readEvent == readEvt && tap.writeEvent == writeEvt &&
              tap.readOverlapped == Overlapped(0, 0, readEvt, Uninitialised) &&
              tap.writeOverlapped == Overlapped(0, 0, writeEvt, Uninitialised) &&
              tap.sent == [] &&
              tap.kernelObjects == {FileObject(TapPath(outcome.deviceId)), EventObject(readEvt), EventObject(writeEvt)}
  {
    tap := new TapData.Allocate();
    var skip := 0;
    var dryRun, deviceId, deviceName := FindTapDevice(reg, skip, Some(TAP_NAME));
    ghost var dry := Locate(reg, 0, Some(TAP_NAME));
    var steps := 0;
    // tapData->fd; the body of the source's do-while runs at least once, and
    // since fd starts invalid, testing it first changes nothing
    var fd := InvalidHandleValue;
    while fd == InvalidHandleValue && steps < fuel
      invariant 0 <= steps <= fuel && skip == steps
      invariant dryRun == 0 <==> dry.Found?
      invariant dryRun == 0 ==> dry == Found(deviceId, deviceName)
      invariant fd != InvalidHandleValue ==>
                  OpenSpec(reg, canOpen, fuel) == Opened(deviceId, deviceName) &&
                  fd == FileHandle(TapPath(deviceId))
      invariant fd == InvalidHandleValue ==>
                  OpenSpec(reg, canOpen, fuel) == OpenLoop(reg, canOpen, dry, skip, fuel - steps)
      modifies {}
      decreases fuel - steps, if fd == InvalidHandleValue then 1 else 0
    {
      OpenLoopUnfold(reg, canOpen, dry, skip, fuel - steps);
      if dryRun != 0 {
        var found;
        found, deviceId, deviceName := FindTapDevice(reg, skip, None);
        if found != 0 {
          var result := if skip == 0 then TapNotFound else TapErrorOpen;
          return Failed(result), Some(result.Code()), null;
        }
      }
      var path := TapPath(deviceId);
      if canOpen(path) {
        fd := FileHandle(path);
      } else {
        fd := InvalidHandleValue;
        skip := skip + 1;
        steps := steps + 1;
      }
    }
    if fd == InvalidHandleValue {
      return Looping(skip), None, null;
    }
    tap.fd := fd;
    tap.Arm(readEvt, writeEvt);
    outcome := Opened(deviceId, deviceName);
    code := Some(TapOk.Code());
  }
}
