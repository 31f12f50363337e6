/**
 * `MigrationInfo.from_vm_list` of integration-tests/features/environment.py:
 * one pass over the `machines` array of a `list-machines` listing that
 * picks out the addresses of the migration's source and target hosts.
 *
 * The loop keeps, for each host, the first address of the LAST matching
 * entry seen so far, and stops right after the first entry at which both
 * hosts have been seen. Its meaning is given declaratively by `ScanLength`
 * (how many entries the loop reads) and `LastIp` (the address it keeps).
 */
module Migration {
  import opened Wrappers

  /** An entry of the listing: `{"hostname": ..., "ip": [...]}`. */
  datatype Machine = Machine(hostname: string, ip: seq<string>)

  /** `MigrationInfo(local_vm_count, source_ip, target_ip)`; `None` is Python's `None`. */
  datatype MigrationInfo = MigrationInfo(localVmCount: nat, sourceIp: Option<string>, targetIp: Option<string>)

  /** Some entry among the first `n` has hostname `host`. */
  ghost predicate Seen(machines: seq<Machine>, n: nat, host: string)
    requires n <= |machines|
  {
    exists i :: 0 <= i < n && machines[i].hostname == host
  }

  /** Both hosts occur among the first `n` entries. */
  ghost predicate BothSeen(machines: seq<Machine>, n: nat, sourceHost: string, targetHost: string)
    requires n <= |machines|
  {
    Seen(machines, n, sourceHost) && Seen(machines, n, targetHost)
  }

  /**
   * The number of entries among the first `n` that the loop reads: up to and
   * including the first entry by which both hosts have been seen, or all `n`.
   */
  ghost function Scanned(machines: seq<Machine>, n: nat, sourceHost: string, targetHost: string): (r: nat)
    requires n <= |machines|
    ensures r <= n
    ensures r < n ==> BothSeen(machines, r, sourceHost, targetHost)
    ensures forall j :: 0 <= j < r ==> !BothSeen(machines, j, sourceHost, targetHost)
    decreases n
  {
    if n == 0 then 0
    else if BothSeen(machines, n - 1, sourceHost, targetHost) then Scanned(machines, n - 1, sourceHost, targetHost)
    else n
  }

  /** How many entries `from_vm_list` reads before it returns. */
  ghost function ScanLength(machines: seq<Machine>, sourceHost: string, targetHost: string): nat
  {
    Scanned(machines, |machines|, sourceHost, targetHost)
  }

  /** Every entry among the first `n` with hostname `host` has an address, so `machine["ip"][0]` does not raise. */
  ghost predicate IpsPresent(machines: seq<Machine>, n: nat, host: string)
    requires n <= |machines|
  {
    forall i :: 0 <= i < n && machines[i].hostname == host ==> |machines[i].ip| > 0
  }

  /** Every entry the scan reads and matches has an address. */
  ghost predicate Readable(machines: seq<Machine>, sourceHost: string, targetHost: string)
  {
    var n := ScanLength(machines, sourceHost, targetHost);
    IpsPresent(machines, n, sourceHost) && IpsPresent(machines, n, targetHost)
  }

  /** The first address of the last entry among the first `n` whose hostname is `host`, if any. */
  ghost function LastIp(machines: seq<Machine>, n: nat, host: string): (r: Option<string>)
    requires n <= |machines|
    requires IpsPresent(machines, n, host)
    ensures r.Some? <==> Seen(machines, n, host)
    decreases n
  {
    if n == 0 then None
    else if machines[n - 1].hostname == host then Some(machines[n - 1].ip[0])
    else LastIp(machines, n - 1, host)
  }

  /** What `from_vm_list` returns: the full count, and the addresses kept by the entries it reads. */
  ghost function FromVmListSpec(machines: seq<Machine>, sourceHost: string, targetHost: string): (r: MigrationInfo)
    requires Readable(machines, sourceHost, targetHost)
    ensures r.localVmCount == |machines|
    ensures r.sourceIp.Some? <==> Seen(machines, ScanLength(machines, sourceHost, targetHost), sourceHost)
    ensures r.targetIp.Some? <==> Seen(machines, ScanLength(machines, sourceHost, targetHost), targetHost)
    ensures ScanLength(machines, sourceHost, targetHost) < |machines| ==> r.sourceIp.Some? && r.targetIp.Some?
  {
    var n := ScanLength(machines, sourceHost, targetHost);
    MigrationInfo(|machines|, LastIp(machines, n, sourceHost), LastIp(machines, n, targetHost))
  }

  /** The scan length is the one `m` that is minimal and, unless it is the whole listing, has seen both hosts. */
  lemma ScanLengthUnique(machines: seq<Machine>, sourceHost: string, targetHost: string, m: nat)
    requires m <= |machines|
    requires m < |machines| ==> BothSeen(machines, m, sourceHost, targetHost)
    requires forall j :: 0 <= j < m ==> !BothSeen(machines, j, sourceHost, targetHost)
    ensures ScanLength(machines, sourceHost, targetHost) == m
  {

  }

  /** `MigrationInfo.from_vm_list(machines, source_host, target_host)` */
  method FromVmList(machines: seq<Machine>, sourceHost: string, targetHost: string) returns (info: MigrationInfo)
    requires Readable(machines, sourceHost, targetHost)
    ensures info.localVmCount == |machines|
    ensures info == FromVmListSpec(machines, sourceHost, targetHost)
  {
    var vmCount := |machines|;
    var sourceIp: Option<string> := None;
    var targetIp: Option<string> := None;
    ghost var n := ScanLength(machines, sourceHost, targetHost);
    for i := 0 to |machines|
      invariant forall j :: 0 <= j <= i ==> !BothSeen(machines, j, sourceHost, targetHost)
      invariant i <= n
      invariant sourceIp == LastIp(machines, i, sourceHost)
      invariant targetIp == LastIp(machines, i, targetHost)
    {
      assert i < n by {
        assert n < |machines| ==> BothSeen(machines, n, sourceHost, targetHost);
      }
      var machine := machines[i];
      if machine.hostname == sourceHost {
        sourceIp := Some(machine.ip[0]);
      }
      if machine.hostname == targetHost {
        targetIp := Some(machine.ip[0]);
      }
      assert sourceIp == LastIp(machines, i + 1, sourceHost);
      assert targetIp == LastIp(machines, i + 1, targetHost);
      if sourceIp.Some? && targetIp.Some? {
        assert BothSeen(machines, i + 1, sourceHost, targetHost);
        ScanLengthUnique(machines, sourceHost, targetHost, i + 1);
        break;
      }
    }
    info := MigrationInfo(vmCount, sourceIp, targetIp);
  }

  // ---------------------------------------------------------------------------
  // Properties of the scan
  // ---------------------------------------------------------------------------

  /** `LastIp` is the address of the last matching entry: given that entry, it is that entry's first address. */
  lemma {:induction false} LastIpIsLast(machines: seq<Machine>, n: nat, host: string, i: nat)
    requires n <= |machines| && IpsPresent(machines, n, host)
    requires i < n && machines[i].hostname == host
    requires forall j :: i < j < n ==> machines[j].hostname != host
    ensures LastIp(machines, n, host) == Some(machines[i].ip[0])
    decreases n
  {
    if i < n - 1 {
      LastIpIsLast(machines, n - 1, host, i);
    }
  }

  /** `LastIp` reads only the first `n` entries. */
  lemma {:induction false} LastIpReadsPrefix(machines: seq<Machine>, others: seq<Machine>, n: nat, host: string)
    requires n <= |machines| && n <= |others|
    requires forall i :: 0 <= i < n ==> machines[i] == others[i]
    requires IpsPresent(machines, n, host)
    ensures IpsPresent(others, n, host)
    ensures LastIp(machines, n, host) == LastIp(others, n, host)
    decreases n
  {
    if n > 0 {
      LastIpReadsPrefix(machines, others, n - 1, host);
    }
  }

  /**
   * `local_vm_count` is the length of the listing, and a host that no entry
   * names gets `None`, whatever else the listing holds.
   */
  lemma MissingHostGivesNone(machines: seq<Machine>, sourceHost: string, targetHost: string)
    requires Readable(machines, sourceHost, targetHost)
    ensures FromVmListSpec(machines, sourceHost, targetHost).localVmCount == |machines|
    ensures (forall i :: 0 <= i < |machines| ==> machines[i].hostname != sourceHost) ==>
      FromVmListSpec(machines, sourceHost, targetHost).sourceIp == None
    ensures (forall i :: 0 <= i < |machines| ==> machines[i].hostname != targetHost) ==>
      FromVmListSpec(machines, sourceHost, targetHost).targetIp == None
  {
  }

  /** A missing host cannot make the scan raise: only the entries that match need an address. */
  lemma MissingTargetIsReadable(machines: seq<Machine>, sourceHost: string, targetHost: string)
    requires forall i :: 0 <= i < |machines| ==> machines[i].hostname != targetHost
    requires forall i :: 0 <= i < |machines| && machines[i].hostname == sourceHost ==> |machines[i].ip| > 0
    ensures Readable(machines, sourceHost, targetHost)
    ensures ScanLength(machines, sourceHost, targetHost) == |machines|
  {
    ScanLengthUnique(machines, sourceHost, targetHost, |machines|);
  }

  /** When hostnames are unique, each matched host gets the first address of its own entry. */
  lemma UniqueHostnamesGiveOwnIp(machines: seq<Machine>, sourceHost: string, targetHost: string, i: nat)
    requires Readable(machines, sourceHost, targetHost)
    requires forall j, k :: 0 <= j < k < |machines| ==> machines[j].hostname != machines[k].hostname
    requires i < |machines|
    ensures machines[i].hostname == sourceHost ==>
      |machines[i].ip| > 0 && FromVmListSpec(machines, sourceHost, targetHost).sourceIp == Some(machines[i].ip[0])
    ensures machines[i].hostname == targetHost ==>
      |machines[i].ip| > 0 && FromVmListSpec(machines, sourceHost, targetHost).targetIp == Some(machines[i].ip[0])
  {
    var n := ScanLength(machines, sourceHost, targetHost);
    var host := machines[i].hostname;
    if host == sourceHost || host == targetHost {
      // had the scan stopped before entry i, it would have seen `host` at another entry
      assert n < |machines| ==> BothSeen(machines, n, sourceHost, targetHost);
      assert i < n;
      LastIpIsLast(machines, n, host, i);
    }
  }

  /**
   * With `source_host == target_host`, the scan stops at the first matching
   * entry and both addresses are that entry's first address.
   */
  lemma SameHostReadsFirstMatch(machines: seq<Machine>, host: string, i: nat)
    requires i < |machines| && machines[i].hostname == host && |machines[i].ip| > 0
    requires forall j :: 0 <= j < i ==> machines[j].hostname != host
    ensures ScanLength(machines, host, host) == i + 1
    ensures Readable(machines, host, host)
    ensures FromVmListSpec(machines, host, host) == MigrationInfo(|machines|, Some(machines[i].ip[0]), Some(machines[i].ip[0]))
  {
    assert Seen(machines, i + 1, host);
    ScanLengthUnique(machines, host, host, i + 1);
    LastIpIsLast(machines, i + 1, host, i);
  }

  /**
   * Once both hosts have been seen the scan has stopped: replacing every
   * entry after the ones it read changes neither its length nor the
   * addresses it returns.
   */
  lemma LaterEntriesNeverRead(machines: seq<Machine>, sourceHost: string, targetHost: string, rest: seq<Machine>)
    requires Readable(machines, sourceHost, targetHost)
    requires BothSeen(machines, ScanLength(machines, sourceHost, targetHost), sourceHost, targetHost)
    ensures var n := ScanLength(machines, sourceHost, targetHost);
      var others := machines[..n] + rest;
      && ScanLength(others, sourceHost, targetHost) == n
      && Readable(others, sourceHost, targetHost)
      && FromVmListSpec(others, sourceHost, targetHost).sourceIp == FromVmListSpec(machines, sourceHost, targetHost).sourceIp
      && FromVmListSpec(others, sourceHost, targetHost).targetIp == FromVmListSpec(machines, sourceHost, targetHost).targetIp
  {
    var n := ScanLength(machines, sourceHost, targetHost);
    var others := machines[..n] + rest;
    assert forall i :: 0 <= i < n ==> machines[i] == others[i];
    forall j | 0 <= j <= n
      ensures BothSeen(others, j, sourceHost, targetHost) == BothSeen(machines, j, sourceHost, targetHost)
    {
      assert Seen(others, j, sourceHost) == Seen(machines, j, sourceHost);
      assert Seen(others, j, targetHost) == Seen(machines, j, targetHost);
    }
    ScanLengthUnique(others, sourceHost, targetHost, n);
    LastIpReadsPrefix(machines, others, n, sourceHost);
    LastIpReadsPrefix(machines, others, n, targetHost);
  }
}
