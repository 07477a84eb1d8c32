# TAP adapter bridge for Windows: a Dafny model

This project models the native layer of Lanemu's Windows TAP transport,
`tapWindows/tuntap.c`. The layer does three things:

- **Adapter discovery** (`getDeviceName`, `findTapDevice`). It scans the
  network-adapter class key of the registry for TAP instances of one driver
  family. It picks the family from the `TapDriver` setting, skips
  `skip` family members, and selects the first later one whose connection
  name resolves and, when asked, equals a given name.
- **Opening the session** (`openTun`, `close`). It runs an exact-name pass
  for the adapter called `Lanemu`, then a fallback that retries with
  growing `skip` after each failed `CreateFile` on `\\.\Global\<id>.tap`. It
  then sets the media status to connected, creates one event per direction
  and binds both OVERLAPPED slots to them with zero offsets.
- **Blocking I/O on OVERLAPPED slots** (`write`, `read`). `write` waits for
  the previous write only when that write is still incomplete, submits the
  new one and returns. `read` submits a read and blocks when it goes
  pending.

Modules:

- `Common`: `Option`, the DWORD and byte types.
- `Discovery`: the registry snapshot as a value. `GetDeviceName` is a
  function. `LocateFrom`/`Locate` is the selection rule as a recursive
  function. `FindTapDevice` is the source's for-loop as a method, proved
  equal to `Locate`.
- `DiscoveryProps`: a declarative description of the selected subkey
  (`SelectedAt`: first entry that is a family candidate, at family ordinal
  at least `skip`, and resolves, with no unopenable device subkey before
  it). It also holds lemmas tying `LocateFrom` to that description in both
  directions, plus lemmas on truncation, ignored entries and exhausted skip.
- `OpenPolicy`: the device path, the result codes, and the do-while of
  `openTun` as `OpenLoop`, bounded by `fuel`. Lemmas cover termination of
  the fallback, retry to the first openable candidate, NOT_FOUND versus
  ERROR_OPEN, and the endless retry after a successful exact-name pass.
- `Session`: the `TapData` class (`fd`, the two events, the two OVERLAPPED
  slots) with `OpenTun`, `Close`, `Write` and `Read`. It includes a pure
  `WriteStep` for one write call and a lemma over whole sequences of write
  calls.

What is a parameter rather than a call:

- The registry is a `Registry` value, fixed during a call.
- Whether `CreateFile` opens a path is an oracle `canOpen: string -> bool`.
- The events `CreateEvent` returns are passed in.
- What the operating system reports is passed in as a `WriteCall` or
  `ReadIssue` value: whether the previous write is still running when
  polled, and how a new write or read is taken (done at once, pending, or
  failed), including the frame a read delivers.
- A blocking wait is modelled as the pending operation having completed.

The one rule the operating system imposes on OVERLAPPED slots is that a
slot must not be reused while its operation is in flight. That rule is the
precondition of `Session.Submit`. A poll (`Session.Poll`) settles only a
write it sees finished. A write the poll reports still running is settled
only by the wait. So `Write` meets Submit's precondition because it waits:
without the wait, the call to Submit would not verify. `Read` settles its
slot only after waiting for a pending read.

Behaviour the model keeps as written:

- When the exact-name pass finds `Lanemu` but its device never opens, the
  do-while retries the same path forever. It never falls back to the
  search (`ExactMatchRetriedForever`).
- A family member past the skip point whose name does not resolve keeps
  the fallback's `skip` unchanged while the loop increments `skip` after
  the *open* failure. So the same device can be tried more than once when
  an unresolved entry lies before it.
- When the NetCfgInstanceId query fails, the id buffer keeps the previous
  candidate's id (tapWindows/tuntap.c:154-157). `FindTapDevice` models
  this as written. Its loop invariant shows that such a stale id never
  resolves, so no such entry is ever selected.
- `close` leaves both events open (`Close` keeps them in `kernelObjects`).

## Model

| member | source | states |
|---|---|---|
| `Discovery.ActiveFamily` | tapWindows/tuntap.c:107-120 | The family is "tap0901" exactly when the application key opens, TapDriver is read and it is non-zero; otherwise it is "tapoas". |
| `Discovery.GetDeviceName` | tapWindows/tuntap.c:68-96 | Returns 0 exactly when the id is non-empty, its Connection key opens, Name is read and, if a name is asked for, Name equals it; returns 1 otherwise. Name lands in the out-buffer whenever it is read, even if the filter then rejects it; otherwise the buffer is unchanged. |
| `Discovery.LocateFromSound` | tapWindows/tuntap.c:150-163 | A selected device is the instance id of an enumerated entry of the active family. Its connection name resolves, is the name returned, and equals the requested name when one is given. |
| `Discovery.FindTapDevice` | tapWindows/tuntap.c:98-175 | The for-loop returns 0 exactly when the selection rule finds a device (the recursive reference rule `Discovery.LocateFrom`, behind the class-key check in `Discovery.Locate`, on which every discovery lemma is stated), with that id and name in the buffers, and 1 otherwise. This includes the class key not opening and a device subkey not opening. A stale id left by a failed NetCfgInstanceId query never changes the outcome. |
| `DiscoveryProps.LocateFromSelects` | tapWindows/tuntap.c:132-166 | If entry k satisfies the declarative rule, the scan returns entry k's id and connection name. The rule: a device subkey of the active family, at family ordinal at least `skip`, whose name resolves, with no earlier unopenable device subkey and no earlier entry meeting the rule. |
| `DiscoveryProps.LocateFromNone` | tapWindows/tuntap.c:132-174 | If no entry satisfies the declarative rule, the scan finds nothing. |
| `DiscoveryProps.LocateCharacterised` | tapWindows/tuntap.c:122-174 | Discovery succeeds if and only if the class key opens and some entry satisfies the declarative rule. |
| `DiscoveryProps.OpenFailureTruncates` | tapWindows/tuntap.c:144-148 | A device subkey that fails to open ends the scan. The outcome is that of the entries before it, whatever comes after. |
| `DiscoveryProps.OtherEntryIgnored` | tapWindows/tuntap.c:137-152 | Inserting a "Configuration"/"Properties" subkey, or an openable subkey of another family, anywhere leaves the outcome unchanged. Such entries neither use up skip nor become candidates. |
| `DiscoveryProps.SkipPastAll` | tapWindows/tuntap.c:153-162 | With skip at least the number of openable subkeys of the active family, nothing is found. |
| `DiscoveryProps.ExactMatchResolvesUnfiltered` | tapWindows/tuntap.c:91-93 | If the exact-name pass with no skip finds a device, the unfiltered pass finds one too. The name filter only removes choices. |
| `OpenPolicy.TapResult.Code` | tapWindows/tuntap.c:62-66 | OK, NOT_FOUND and ERROR_OPEN are 0, 1 and 2. |
| `OpenPolicy.TapPath` | tapWindows/tuntap.c:226 | The device path is `\\.\Global\` followed by the id and `.tap`. |
| `OpenPolicy.TapPathRoundTrip` | tapWindows/tuntap.c:226 | The id can be recovered from the device path. |
| `OpenPolicy.TapPathInjective` | tapWindows/tuntap.c:226 | Distinct ids give distinct device paths. |
| `OpenPolicy.OpenLoop` | tapWindows/tuntap.c:216-241 | An opened device's path opens. After a successful exact-name pass only that device is ever opened, and no failure is returned. A failure is only returned after the exact-name pass failed, and never as OK. NOT_FOUND comes only from skip 0 with the unfiltered search empty. Running out of fuel means skip grew by one per iteration. |
| `OpenPolicy.FallbackOpensSearchResult` | tapWindows/tuntap.c:217-241 | A device opened by the fallback is the one the unfiltered search returns for some skip at or after the starting one. |
| `OpenPolicy.ExactMatchRetriedForever` | tapWindows/tuntap.c:214-241 | After a successful exact-name pass whose path does not open, every number of iterations ends still looping, with skip grown by that number. (No search is made because OpenLoop's candidate, `Current`, is the exact-name result whenever that pass found one.) |
| `OpenPolicy.CandidateCount` | tapWindows/tuntap.c:150-162 | The number of openable subkeys of the active family, which is at most the number of subkeys. |
| `OpenPolicy.FallbackTerminates` | tapWindows/tuntap.c:216-241 | After a failed exact-name pass, the loop returns within one iteration more than there are family candidates. It either opens a device or fails: NOT_FOUND when it started at skip 0 and the unfiltered search finds nothing, ERROR_OPEN otherwise. |
| `OpenPolicy.FallbackOpensFirstOpenable` | tapWindows/tuntap.c:216-241 | If the candidates for skip s..k-1 all fail to open and the one for skip k opens, the loop opens that one. Each failure raises skip by exactly one. |
| `OpenPolicy.FallbackExhausted` | tapWindows/tuntap.c:217-220 | If the candidates for skip 0..k-1 all fail to open and the search for skip k is empty, the result is NOT_FOUND when k = 0 and ERROR_OPEN otherwise. |
| `OpenPolicy.NotFoundExactly` | tapWindows/tuntap.c:214-220 | openTun returns NOT_FOUND if and only if both the exact-name pass and the unfiltered pass with skip 0 find nothing. |
| `Session.TapControlCode` | tapWindows/tuntap.c:41-49 | The CTL_CODE layout: the transfer method, request number, access and device type FILE_DEVICE_UNKNOWN can each be read back from the code. |
| `Session.Settle` | tapWindows/tuntap.c:286 | What a blocking wait on the slot's event leaves (here and at line 306 for reads): the slot is no longer in flight, and its offsets and event are unchanged. |
| `Session.Submit` | tapWindows/tuntap.c:289 | Submitting through a slot needs its previous operation to be over. It keeps the offsets and event, and leaves the slot in flight exactly when the operation went pending. |
| `Session.Poll` | tapWindows/tuntap.c:282-285 | Polling a write slot without waiting leaves it in flight exactly when its write was in flight and is still running. Offsets and event are unchanged. |
| `Session.WriteStep` | tapWindows/tuntap.c:282-289 | A write call blocks exactly when the previous write is in flight and still running at the poll. It keeps the slot's offsets and event. Afterwards the only write that can be in flight is the new one. |
| `Session.WaitsAtMostOncePerPendingWrite` | tapWindows/tuntap.c:282-289 | Over any sequence of write calls, waits plus the write left in flight never exceed the writes that went pending plus the one in flight at the start. Each wait is for a distinct earlier write. |
| `Session.WritesKeepBinding` | tapWindows/tuntap.c:255-257 | No sequence of write calls changes the write slot's zero offsets or its event. |
| `Session.TapData.Allocate` | tapWindows/tuntap.c:211 | A fresh record: slots never used, nothing issued or held. The handle is indeterminate in the source; the model picks INVALID_HANDLE_VALUE and nothing depends on that choice. |
| `Session.TapData.Arm` | tapWindows/tuntap.c:243-257 | Exactly one media-status request (TAP_IOCTL_SET_MEDIA_STATUS, TRUE) has been issued, and nothing depends on its result. Each slot has zero offsets and its own direction's event. The session is valid. |
| `Session.TapData.Close` | tapWindows/tuntap.c:264-271 | The record is freed and the device handle closed. Both events remain open, and an in-flight write is left as it is. |
| `Session.TapData.Write` | tapWindows/tuntap.c:273-292 | The new slot state and the wait match WriteStep. The session stays valid. The first `len` bytes are handed to the device after all earlier frames, unless WriteFile rejects them. |
| `Session.TapData.Read` | tapWindows/tuntap.c:294-313 | Blocks exactly when the read goes pending. Returns the byte count of the completed read, which never exceeds the buffer length, with those bytes at the front of the buffer and the rest unchanged. A non-pending failure gives an indeterminate count and leaves the buffer unchanged. The read slot is never left in flight. |
| `Session.OpenTun` | tapWindows/tuntap.c:202-262 | The outcome is OpenSpec: the exact-name pass, then the retry loop from skip 0. The returned code is TAP_RESULT_OK exactly when a record is returned. A failure returns its TapResult code, and no code at all while the loop has not returned. A record is returned only on success. It is then armed, holds a handle on `\\.\Global\<id>.tap`, and holds the file and both events. |

## Left out

- JNI marshalling (`setTapDataDev`, `getTapData`, Get/ReleaseByteArrayElements). The session is the `TapData` object itself, and the connection name handed back to Java is the `deviceName` of `Opened`.
- `printf` diagnostics.
- Fixed buffer sizes: the 1024-byte key names, the 256-byte ids, names and device path, and the bytes RegQueryValueEx reports through `len`. Truncation by `snprintf`/`strncpy` and ERROR_MORE_DATA are not modelled. Strings compare as whole sequences, not up to an embedded NUL.
- The registry is a snapshot fixed for the whole of openTun. Whether a path opens does not change between attempts. Registry handles are not modelled, so neither is the class key left open on the early return at tapWindows/tuntap.c:147.
- Discovery.FindTapDevice: on a return of 1 its buffers are unconstrained, because the source's buffers then hold earlier or partial contents and openTun never reads them. If the class key fails to open, they keep the caller's earlier contents, because the return at tapWindows/tuntap.c:124-127 comes before the clearing at 129-130.
- OpenPolicy.OpenLoop: the loop runs for at most `fuel` iterations, and `Looping(skip)` stands for "has not returned yet". Termination of the exact-name case is not claimed, because it does not hold. `skip` is an unbounded integer: in that endless retry the source's C `int` would eventually overflow (undefined behaviour), and `Looping(skip + fuel)` does not model that.
- Session.OpenTun: the loop keeps the opened handle in a local until it succeeds, then stores it in `fd`. Failed CreateFile results are not kept in the record. CreateEvent failure is not modelled.
- Session.TapData.Write: never zeroing `write_overlapped` is undefined behaviour. The model assumes the unused slot is not reported as incomplete, so the first write does not wait. The frame is recorded when it is submitted, but the source releases the Java buffer with JNI_ABORT while the write may still be in flight. Only the completion wait is modelled, not the signalled state of the auto-reset events.
- Session.TapData.Write: requires `0 <= len <= |b|`. The source hands any `jint len` to WriteFile. A larger length over-reads the Java array, and a negative one is converted to a huge DWORD. Both are undefined behaviour, which the model excludes by precondition rather than modelling.
- Session.TapData.Read: the length requested from ReadFile (the Java array's length) is taken to be the whole of `buf` and is not modelled separately. The device delivering at most that length is a precondition on the oracle frame, so `len.count <= buf.Length` is assumed, not derived. The count a ReadFile failure leaves uninitialised is `Indeterminate`, not a number.
- Use after `close`: `Valid()` is false after `Close`, so further `Write`/`Read` calls cannot be made.
- The device control codes other than TAP_IOCTL_SET_MEDIA_STATUS are defined but unused.
- Concurrency: one reader thread and one writer thread on disjoint slots. The thread suspension inside a wait is not modelled.
- `network_manager.py` is not part of this model: it is a Tkinter front end around external commands. `tapWindows/tuntap.h` holds only declarations.
