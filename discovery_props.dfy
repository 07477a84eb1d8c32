/** Properties of the discovery rule LocateFrom, stated against a declarative
    description of the selected subkey: the first entry that (a) is a device
    subkey of the active family, (b) has family ordinal at least `skip`, and
    (c) resolves to a connection name, provided no earlier device subkey failed
    to open. */
module DiscoveryProps {
  import opened Common
  import opened Discovery

  /** An entry that consumes skip budget or can be selected: a device subkey
      that opens and whose ComponentId is the active family. */
  predicate Candidate(e: Entry, family: string)
  {
    IsDeviceKey(e.keyName) && e.opens && e.componentId == Some(family)
  }

  /** A device subkey that fails to open: findTapDevice gives up on reaching it. */
  predicate Blocks(e: Entry)
  {
    IsDeviceKey(e.keyName) && !e.opens
  }

  /** The number of candidates among es[..k]: the family ordinal of es[k]. */
  function Ordinal(es: seq<Entry>, family: string, k: nat): (n: nat)
    requires k <= |es|
    ensures n <= k
  {
    if k == 0 then 0
    else (if Candidate(es[0], family) then 1 else 0) + Ordinal(es[1..], family, k - 1)
  }

  /** es[j] could be selected: a candidate past the skip point whose name resolves. */
  predicate Eligible(es: seq<Entry>, family: string, conns: map<string, Connection>,
                     skip: int, specificName: Option<string>, j: nat)
    requires j < |es|
  {
    Candidate(es[j], family) && Ordinal(es, family, j) >= skip &&
    es[j].instanceId.Some? && Resolves(conns, es[j].instanceId.value, specificName)
  }

  /** es[k] is the entry the scan selects. */
  predicate SelectedAt(es: seq<Entry>, family: string, conns: map<string, Connection>,
                       skip: int, specificName: Option<string>, k: nat)
  {
    k < |es| && Eligible(es, family, conns, skip, specificName, k) &&
    forall j :: 0 <= j < k ==> !Blocks(es[j]) && !Eligible(es, family, conns, skip, specificName, j)
  }

  /** The skip budget left after passing es[0]: it drops only at a candidate. */
  function SkipAfter(e: Entry, family: string, skip: int): int
  {
    if Candidate(e, family) && skip >= 1 then skip - 1 else skip
  }

  lemma EligibleShift(es: seq<Entry>, family: string, conns: map<string, Connection>,
                      skip: int, specificName: Option<string>, j: nat)
    requires j + 1 < |es|
    requires !Blocks(es[0]) && !Eligible(es, family, conns, skip, specificName, 0)
    ensures Eligible(es, family, conns, skip, specificName, j + 1) <==>
            Eligible(es[1..], family, conns, SkipAfter(es[0], family, skip), specificName, j)
  {
    assert Ordinal(es, family, j + 1) ==
           (if Candidate(es[0], family) then 1 else 0) + Ordinal(es[1..], family, j);
  }

  lemma {:induction false} SelectedShift(es: seq<Entry>, family: string, conns: map<string, Connection>,
                                         skip: int, specificName: Option<string>, k: nat)
    requires k + 1 < |es|
    requires !Blocks(es[0]) && !Eligible(es, family, conns, skip, specificName, 0)
    ensures SelectedAt(es, family, conns, skip, specificName, k + 1) <==>
            SelectedAt(es[1..], family, conns, SkipAfter(es[0], family, skip), specificName, k)
  {
    var skip' := SkipAfter(es[0], family, skip);
    EligibleShift(es, family, conns, skip, specificName, k);
    forall j | 0 <= j < k
      ensures Eligible(es, family, conns, skip, specificName, j + 1) <==>
              Eligible(es[1..], family, conns, skip', specificName, j)
    {
      EligibleShift(es, family, conns, skip, specificName, j);
    }
    if SelectedAt(es[1..], family, conns, skip', specificName, k) {
      forall j | 0 <= j < k + 1
        ensures !Blocks(es[j]) && !Eligible(es, family, conns, skip, specificName, j)
      {
        if j > 0 {
          assert es[1..][j - 1] == es[j];
        }
      }
    }
    if SelectedAt(es, family, conns, skip, specificName, k + 1) {
      forall j | 0 <= j < k
        ensures !Blocks(es[1..][j]) && !Eligible(es[1..], family, conns, skip', specificName, j)
      {
        assert es[1..][j] == es[j + 1];
      }
    }
  }

  /** The scan returns the entry selected by the declarative rule. */
  lemma {:induction false} LocateFromSelects(es: seq<Entry>, family: string, conns: map<string, Connection>,
                                             skip: int, specificName: Option<string>, k: nat)
    requires SelectedAt(es, family, conns, skip, specificName, k)
    ensures LocateFrom(es, family, conns, skip, specificName) ==
            Found(es[k].instanceId.value, conns[es[k].instanceId.value].name.value)
    decreases k
  {
    var e := es[0];
    if k == 0 {
      assert Ordinal(es, family, 0) == 0;
    } else {
      assert !Blocks(e) && !Eligible(es, family, conns, skip, specificName, 0);
      SelectedShift(es, family, conns, skip, specificName, k - 1);
      LocateFromSelects(es[1..], family, conns, SkipAfter(e, family, skip), specificName, k - 1);
      assert es[1..][k - 1] == es[k];
      if Candidate(e, family) && skip < 1 {
        assert Ordinal(es, family, 0) == 0;
      }
    }
  }

  /** When no entry is selected by the declarative rule, the scan finds nothing. */
  lemma {:induction false} LocateFromNone(es: seq<Entry>, family: string, conns: map<string, Connection>,
                                          skip: int, specificName: Option<string>)
    requires forall k: nat :: !SelectedAt(es, family, conns, skip, specificName, k)
    ensures LocateFrom(es, family, conns, skip, specificName) == NotFound
    decreases |es|
  {
    if es != [] {
      var e := es[0];
      assert !SelectedAt(es, family, conns, skip, specificName, 0);
      if !Blocks(e) {
        var skip' := SkipAfter(e, family, skip);
        forall k: nat
          ensures !SelectedAt(es[1..], family, conns, skip', specificName, k)
        {
          if k + 1 < |es| {
            SelectedShift(es, family, conns, skip, specificName, k);
          }
        }
        LocateFromNone(es[1..], family, conns, skip', specificName);
        if Candidate(e, family) && skip < 1 {
          assert Ordinal(es, family, 0) == 0;
        }
      }
    }
  }

  /** Locate finds an adapter exactly when the declarative rule selects one. */
  lemma LocateCharacterised(reg: Registry, skip: int, specificName: Option<string>)
    ensures Locate(reg, skip, specificName).Found? <==>
            reg.classKeyOpens &&
            exists k: nat :: SelectedAt(reg.adapters, ActiveFamily(reg.settings), reg.connections,
                                        skip, specificName, k)
  {
    var family := ActiveFamily(reg.settings);
    if reg.classKeyOpens {
      if exists k: nat :: SelectedAt(reg.adapters, family, reg.connections, skip, specificName, k) {
        var k: nat :| SelectedAt(reg.adapters, family, reg.connections, skip, specificName, k);
        LocateFromSelects(reg.adapters, family, reg.connections, skip, specificName, k);
      } else {
        LocateFromNone(reg.adapters, family, reg.connections, skip, specificName);
      }
    }
  }

  /** A device subkey that fails to open ends the scan: whatever follows it,
      the outcome is that of the entries before it. */
  lemma {:induction false} OpenFailureTruncates(pre: seq<Entry>, bad: Entry, post: seq<Entry>,
                                                family: string, conns: map<string, Connection>,
                                                skip: int, specificName: Option<string>)
    requires Blocks(bad)
    ensures LocateFrom(pre + [bad] + post, family, conns, skip, specificName) ==
            LocateFrom(pre, family, conns, skip, specificName)
    decreases |pre|
  {
    var es := pre + [bad] + post;
    if pre == [] {
      assert es[0] == bad;
    } else {
      assert es[0] == pre[0];
      assert es[1..] == pre[1..] + [bad] + post;
      OpenFailureTruncates(pre[1..], bad, post, family, conns, skip, specificName);
      OpenFailureTruncates(pre[1..], bad, post, family, conns, skip - 1, specificName);
    }
  }

  /** A "Configuration"/"Properties" subkey, or a device subkey of another
      family, neither consumes skip nor is selected: inserting one anywhere
      leaves the outcome unchanged. */
  lemma {:induction false} OtherEntryIgnored(pre: seq<Entry>, x: Entry, post: seq<Entry>,
                                             family: string, conns: map<string, Connection>,
                                             skip: int, specificName: Option<string>)
    requires !IsDeviceKey(x.keyName) || (x.opens && x.componentId != Some(family))
    ensures LocateFrom(pre + [x] + post, family, conns, skip, specificName) ==
            LocateFrom(pre + post, family, conns, skip, specificName)
    decreases |pre|
  {
    var es := pre + [x] + post;
    if pre == [] {
      assert es[0] == x && es[1..] == post;
      assert pre + post == post;
    } else {
      assert es[0] == pre[0] && (pre + post)[0] == pre[0];
      assert es[1..] == pre[1..] + [x] + post;
      assert (pre + post)[1..] == pre[1..] + post;
      OtherEntryIgnored(pre[1..], x, post, family, conns, skip, specificName);
      OtherEntryIgnored(pre[1..], x, post, family, conns, skip - 1, specificName);
    }
  }

  /** With a skip at least the number of family candidates, the scan finds
      nothing: every candidate is passed over. */
  lemma {:induction false} SkipPastAll(es: seq<Entry>, family: string, conns: map<string, Connection>,
                                       skip: int, specificName: Option<string>)
    requires skip >= Ordinal(es, family, |es|)
    ensures LocateFrom(es, family, conns, skip, specificName) == NotFound
    decreases |es|
  {
    if es != [] {
      assert Ordinal(es, family, |es|) ==
             (if Candidate(es[0], family) then 1 else 0) + Ordinal(es[1..], family, |es[1..]|);
      if Candidate(es[0], family) {
        SkipPastAll(es[1..], family, conns, skip - 1, specificName);
      } else {
        SkipPastAll(es[1..], family, conns, skip, specificName);
      }
    }
  }

  /** A name filter only removes choices: when the exact-name pass with no
      skip finds an adapter, so does the unfiltered pass. */
  lemma {:induction false} ExactMatchResolvesUnfiltered(es: seq<Entry>, family: string,
                                                        conns: map<string, Connection>, name: string)
    requires LocateFrom(es, family, conns, 0, Some(name)).Found?
    ensures LocateFrom(es, family, conns, 0, None).Found?
    decreases |es|
  {
    var e := es[0];
    if IsDeviceKey(e.keyName) && e.opens && e.componentId == Some(family) &&
       e.instanceId.Some? && Resolves(conns, e.instanceId.value, Some(name)) {
    } else {
      ExactMatchResolvesUnfiltered(es[1..], family, conns, name);
    }
  }
}
