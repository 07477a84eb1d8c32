/** The retry policy of openTun (tapWindows/tuntap.c, lines 202-241): one
    exact-name discovery pass, then a do-while that opens the device path of
    the current candidate and, on every open failure, increments `skip`.

    The loop does not always terminate: when the exact-name pass succeeds,
    no further search is made and a path that never opens is retried forever.
    OpenLoop therefore runs for at most `fuel` iterations and reports
    `Looping(skip)` when the loop would still be running. Whether a path opens
    is an oracle `canOpen`, fixed for the whole call. */
module OpenPolicy {
  import opened Common
  import opened Discovery
  import DiscoveryProps

  const USER_MODE_DEVICE_DIR: string := "\\\\.\\Global\\"
  const TAP_SUFFIX: string := ".tap"
  /** The connection name the exact-name pass asks for. */
  const TAP_NAME: string := "Lanemu"

  /** TapResult of the source, with its integer codes. */
  datatype TapResult = TapOk | TapNotFound | TapErrorOpen
  {
    function Code(): (c: int)
      ensures 0 <= c <= 2
      ensures c == 0 <==> this == TapOk
      ensures c == 1 <==> this == TapNotFound
    {
      match this
      case TapOk => 0
      case TapNotFound => 1
      case TapErrorOpen => 2
    }
  }

  /** How the do-while ends: the device path of `deviceId` opened, discovery
      failed, or (fuel spent) the loop is still retrying with `skip`. */
  datatype OpenOutcome =
    | Opened(deviceId: string, deviceName: string)
    | Failed(result: TapResult)
    | Looping(skip: int)

  /** The device path opened with CreateFile: `\\.\Global\<id>.tap`. */
  function TapPath(deviceId: string): (path: string)
    ensures |path| == |USER_MODE_DEVICE_DIR| + |deviceId| + |TAP_SUFFIX|
    ensures path[..|USER_MODE_DEVICE_DIR|] == USER_MODE_DEVICE_DIR
    ensures path[|path| - |TAP_SUFFIX|..] == TAP_SUFFIX
  {
    USER_MODE_DEVICE_DIR + deviceId + TAP_SUFFIX
  }

  /** Recovers the instance id from a device path. */
  function DeviceIdOfPath(path: string): string
    requires |path| >= |USER_MODE_DEVICE_DIR| + |TAP_SUFFIX|
  {
    path[|USER_MODE_DEVICE_DIR|..|path| - |TAP_SUFFIX|]
  }

  /** The device path determines the instance id: distinct candidates have
      distinct paths. */
  lemma TapPathRoundTrip(deviceId: string)
    ensures DeviceIdOfPath(TapPath(deviceId)) == deviceId
  {
    var path := TapPath(deviceId);
    assert path == USER_MODE_DEVICE_DIR + deviceId + TAP_SUFFIX;
    assert path[|USER_MODE_DEVICE_DIR|..|path| - |TAP_SUFFIX|] == deviceId;
  }

  lemma TapPathInjective(a: string, b: string)
    requires TapPath(a) == TapPath(b)
    ensures a == b
  {
    TapPathRoundTrip(a);
    TapPathRoundTrip(b);
  }

  /** The candidate an iteration tries: the exact-name result when there is
      one, the fallback search with the current skip otherwise. */
  function Current(reg: Registry, dry: Located, skip: int): Located
  {
    if dry.NotFound? then Locate(reg, skip, None) else dry
  }

  /** The do-while of openTun from the iteration with the given `skip`.
      `dry` is the outcome of the exact-name pass: when it found a device, its
      id and name stay in the buffers and discovery is never repeated. */
  function OpenLoop(reg: Registry, canOpen: string -> bool, dry: Located,
                    skip: int, fuel: nat): (o: OpenOutcome)
    ensures o.Opened? ==> canOpen(TapPath(o.deviceId))
    ensures o.Opened? && dry.Found? ==> o == Opened(dry.deviceId, dry.deviceName)
    ensures o.Failed? ==> dry.NotFound? && o.result != TapOk
    ensures o == Failed(TapNotFound) && skip >= 0 ==> skip == 0 && Locate(reg, 0, None).NotFound?
    ensures o.Looping? ==> o.skip == skip + fuel
    decreases fuel
  {
    if fuel == 0 then Looping(skip)
    else
      match Current(reg, dry, skip)
      case NotFound => Failed(if skip == 0 then TapNotFound else TapErrorOpen)
      case Found(id, name) =>
        if canOpen(TapPath(id)) then Opened(id, name)
        else OpenLoop(reg, canOpen, dry, skip + 1, fuel - 1)
  }

  /** One iteration of OpenLoop, unfolded. */
  lemma OpenLoopUnfold(reg: Registry, canOpen: string -> bool, dry: Located, skip: int, fuel: nat)
    requires fuel > 0
    ensures Current(reg, dry, skip).NotFound? ==>
              OpenLoop(reg, canOpen, dry, skip, fuel) == Failed(if skip == 0 then TapNotFound else TapErrorOpen)
    ensures Current(reg, dry, skip).Found? && canOpen(TapPath(Current(reg, dry, skip).deviceId)) ==>
              OpenLoop(reg, canOpen, dry, skip, fuel) ==
              Opened(Current(reg, dry, skip).deviceId, Current(reg, dry, skip).deviceName)
    ensures Current(reg, dry, skip).Found? && !canOpen(TapPath(Current(reg, dry, skip).deviceId)) ==>
              OpenLoop(reg, canOpen, dry, skip, fuel) == OpenLoop(reg, canOpen, dry, skip + 1, fuel - 1)
  {
  }

  /** A device opened by the fallback loop is the one the search found for
      some skip at or after the starting one. */
  lemma {:induction false} FallbackOpensSearchResult(reg: Registry, canOpen: string -> bool,
                                                     skip: int, fuel: nat)
    requires OpenLoop(reg, canOpen, NotFound, skip, fuel).Opened?
    ensures exists s :: skip <= s &&
              Locate(reg, s, None) == Found(OpenLoop(reg, canOpen, NotFound, skip, fuel).deviceId,
                                            OpenLoop(reg, canOpen, NotFound, skip, fuel).deviceName)
    decreases fuel
  {
    OpenLoopUnfold(reg, canOpen, NotFound, skip, fuel);
    var cur := Locate(reg, skip, None);
    if !canOpen(TapPath(cur.deviceId)) {
      FallbackOpensSearchResult(reg, canOpen, skip + 1, fuel - 1);
    }
  }

  /** openTun's discovery and retry, from `skip` = 0. */
  function OpenSpec(reg: Registry, canOpen: string -> bool, fuel: nat): OpenOutcome
  {
    OpenLoop(reg, canOpen, Locate(reg, 0, Some(TAP_NAME)), 0, fuel)
  }

  /** When the exact-name pass found a device whose path does not open, the
      same path is retried on every iteration and openTun never returns. */
  lemma {:induction false} ExactMatchRetriedForever(reg: Registry, canOpen: string -> bool,
                                                    dry: Located, skip: int, fuel: nat)
    requires dry.Found? && !canOpen(TapPath(dry.deviceId))
    ensures OpenLoop(reg, canOpen, dry, skip, fuel) == Looping(skip + fuel)
    decreases fuel
  {
    if fuel > 0 {
      ExactMatchRetriedForever(reg, canOpen, dry, skip + 1, fuel - 1);
    }
  }

  /** The number of subkeys of the active family that open: the candidates
      the fallback search can pass over. */
  function CandidateCount(reg: Registry): (n: nat)
    ensures n <= |reg.adapters|
  {
    DiscoveryProps.Ordinal(reg.adapters, ActiveFamily(reg.settings), |reg.adapters|)
  }

  /** Once the exact-name pass has failed, the fallback search returns within
      one more iteration than there are family candidates: each failed open
      raises `skip`, and the search for skip = CandidateCount finds nothing.
      It either opens a device or fails with NOT_FOUND (no adapter at skip 0)
      or ERROR_OPEN. */
  lemma {:induction false} FallbackTerminates(reg: Registry, canOpen: string -> bool,
                                              skip: int, fuel: nat)
    requires skip >= 0 && fuel > 0 && fuel + skip > CandidateCount(reg)
    ensures var o := OpenLoop(reg, canOpen, NotFound, skip, fuel);
            o.Opened? ||
            o == Failed(if skip == 0 && Locate(reg, 0, None).NotFound? then TapNotFound else TapErrorOpen)
    decreases fuel
  {
    if skip >= CandidateCount(reg) {
      DiscoveryProps.SkipPastAll(reg.adapters, ActiveFamily(reg.settings), reg.connections,
                                 skip, None);
    } else if Locate(reg, skip, None).Found? && !canOpen(TapPath(Locate(reg, skip, None).deviceId)) {
      FallbackTerminates(reg, canOpen, skip + 1, fuel - 1);
    }
  }

  /** Retrying with skip = s, s + 1, ...: when the candidates found for
      skip in [s, k) all fail to open and the one found for skip = k opens,
      openTun succeeds with that one, on attempt k - s + 1. */
  lemma {:induction false} FallbackOpensFirstOpenable(reg: Registry, canOpen: string -> bool,
                                                      s: int, k: int, fuel: nat)
    requires s <= k && fuel > k - s
    requires forall t :: s <= t < k ==> Locate(reg, t, None).Found? &&
                                        !canOpen(TapPath(Locate(reg, t, None).deviceId))
    requires Locate(reg, k, None).Found? && canOpen(TapPath(Locate(reg, k, None).deviceId))
    ensures OpenLoop(reg, canOpen, NotFound, s, fuel) ==
            Opened(Locate(reg, k, None).deviceId, Locate(reg, k, None).deviceName)
    decreases k - s
  {
    var cur := Locate(reg, s, None);
    if s < k {
      assert cur.Found? && !canOpen(TapPath(cur.deviceId));
      assert OpenLoop(reg, canOpen, NotFound, s, fuel) == OpenLoop(reg, canOpen, NotFound, s + 1, fuel - 1);
      FallbackOpensFirstOpenable(reg, canOpen, s + 1, k, fuel - 1);
    }
  }

  /** When the candidates found for skip in [0, k) all fail to open and the
      search for skip = k finds nothing, openTun returns NOT_FOUND if k = 0
      (no adapter at all) and ERROR_OPEN otherwise. */
  lemma {:induction false} FallbackExhausted(reg: Registry, canOpen: string -> bool,
                                             s: int, k: int, fuel: nat)
    requires 0 <= s <= k && fuel > k - s
    requires forall t :: s <= t < k ==> Locate(reg, t, None).Found? &&
                                        !canOpen(TapPath(Locate(reg, t, None).deviceId))
    requires Locate(reg, k, None).NotFound?
    ensures OpenLoop(reg, canOpen, NotFound, s, fuel) ==
            Failed(if k == 0 then TapNotFound else TapErrorOpen)
    decreases k - s
  {
    if s < k {
      FallbackExhausted(reg, canOpen, s + 1, k, fuel - 1);
    }
  }

  /** openTun reports NOT_FOUND exactly when neither pass finds an adapter. */
  lemma NotFoundExactly(reg: Registry, canOpen: string -> bool, fuel: nat)
    requires fuel > 0
    ensures OpenSpec(reg, canOpen, fuel) == Failed(TapNotFound) <==>
            Locate(reg, 0, Some(TAP_NAME)).NotFound? && Locate(reg, 0, None).NotFound?
  {
  }
}
