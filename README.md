# Leapp integration-test environment: VM helper, migration info, skip decision

This project models the self-contained logic of the behave environment file
of the Leapp prototype's integration tests
(`integration-tests/features/environment.py`). It covers three parts:

- **`VirtualMachineHelper`** binds logical VM names used in scenario steps to
  vagrant hostnames (`"leapp-tests-" + definition`). It brings VMs up and
  keeps an exit stack of deferred teardown callbacks (halt by default,
  destroy on request). `close` unwinds that stack in reverse registration
  order.
  - `vm_spec.dfy` gives the helper's whole state (bindings, pending
    callbacks, vagrant commands run so far) as pure functions, and proves
    the helper's promises about them.
  - `vm_helper.dfy` is the class itself: its methods update fields in place.
    Each method is proved to follow the matching function.
- **`MigrationInfo.from_vm_list`** scans a `list-machines` listing for the
  source and target hostnames, with an early `break`. `migration_info.dfy`
  has it as a loop method, proved against a declarative specification:
  - `ScanLength` is how many entries the loop reads.
  - `LastIp` is the address it keeps for a host.
- **`_skip_test_group`** decides whether a `@skip`-tagged feature or scenario
  is skipped. `skip_decision.dfy` has the decision as a function, and the
  `skip` call as a module-level method that records it in the test group's
  `skipCalls` field.

`wrappers.dfy` holds `Option` (Python's `None`), `Result` and `Outcome`
(a call that returns or raises).

Nothing here runs a command. Each vagrant invocation is appended to the
helper's `issued` log, and whether it exited with status zero is a parameter:
- `cleanOk` and `upOk` for `ensure_local_vm`;
- `succeeded` for `_vm_up`, `_vm_halt` and `_vm_destroy`;
- one outcome per pending callback for `close`.

Other exceptions a command can raise are not modelled (see "## Left out").

`_VM_DEFS` becomes the helper's `definitions` set.

Behaviour of the code worth knowing (the model follows the code):
- The `destroy=True` pre-clean at line 69 passes the hostname to
  `_vm_destroy`, and `_vm_destroy` pops it from the logical-name map with no
  default. So it raises `KeyError`, before `vagrant up`, unless some logical
  name equal to the hostname is bound. It is not a best-effort clean-up
  (`VmSpec.DestroyPrecleanNeedsBinding`). When it succeeds, the callback
  registered earlier for that hostname stays on the stack with its binding
  gone, so the next `close` raises KeyError
  (`VmSpec.DestroyPrecleanLeavesDanglingCallback`).
- `from_vm_list` keeps the address of the last matching entry read before
  the `break`, not the first. The two agree when hostnames are unique
  (`Migration.UniqueHostnamesGiveOwnIp`). When source and target are the
  same host, the first match ends the scan (`Migration.SameHostReadsFirstMatch`).
- The exit stack's `close` runs every callback even after one raises. It
  raises when any did. The model returns the errors raised, in order.

## Model

| member | source | states |
|---|---|---|
| `VmSpec.HostnameFor` | integration-tests/features/environment.py:65 | the hostname is `leapp-tests-` followed by the definition name, nothing more |
| `VmSpec.RunCommand` | integration-tests/features/environment.py:20-35 | raises `CalledProcessError` for the command exactly when the command exits non-zero and its errors are not ignored |
| `VmSpec.VmUp` | integration-tests/features/environment.py:92-96 | `vagrant up` is run for the hostname; it succeeds iff the command does; only then is the name bound to the hostname; no callback is registered |
| `VmSpec.VmTeardown` | integration-tests/features/environment.py:98-108 | the name is unbound afterwards; the call succeeds iff the name was bound; otherwise it raises KeyError and changes nothing; no callback is added or removed |
| `VmSpec.EnsureLocalVm` | integration-tests/features/environment.py:58-74 | on success the name is bound to the prefixed definition and exactly the requested callback is registered; on failure no callback is registered; commands are only appended |
| `VmSpec.GetHostname` | integration-tests/features/environment.py:76-78 | returns the name's binding iff it is bound, otherwise KeyError for the name |
| `VmSpec.UpBindsOnSuccess` | integration-tests/features/environment.py:92-96 | `_vm_up` runs `vagrant up`; only when it succeeds is the name bound to the hostname; a failure raises and leaves the bindings and every other name's lookup unchanged |
| `VmSpec.TeardownPopsBinding` | integration-tests/features/environment.py:98-108 | halt and destroy remove the name's binding and then run their command against the popped hostname; the command's exit status has no effect; an unbound name raises KeyError and changes nothing |
| `VmSpec.EnsureRejectsUnknownImage` | integration-tests/features/environment.py:65-67 | an unknown definition raises ValueError before any command runs, any binding is made or any callback is registered |
| `VmSpec.EnsureBindsAndRegisters` | integration-tests/features/environment.py:58-74 | `ensure_local_vm` succeeds iff the definition is known, the pre-clean (if requested) finds a binding, and `up` succeeds; then `get_hostname(name)` is the prefixed definition, exactly one callback (Halt, or Destroy when requested) is appended, and the commands run are the pre-clean destroy (if any) then `up` |
| `VmSpec.EnsureFailureAddsNothing` | integration-tests/features/environment.py:65-74 | a failing `ensure_local_vm` registers no callback and adds no binding; a command failure can only be the failure of `up` |
| `VmSpec.DestroyPrecleanNeedsBinding` | integration-tests/features/environment.py:68-69 | with `destroy=True`, a hostname that is not bound as a logical name makes the call raise KeyError, with nothing changed |
| `VmSpec.EnsureFrame` | integration-tests/features/environment.py:58-74 | `ensure_local_vm` adds no binding except the name's own, and changes no other binding except the one the pre-clean pops |
| `VmSpec.EnsureKeepsBindable` | integration-tests/features/environment.py:65-67 | every bound hostname stays a known definition, so the directory lookup in `_run_vagrant` cannot fail |
| `VmSpec.EnsureKeepsTracked` | integration-tests/features/environment.py:58-74 | ensuring a not-yet-bound name, where with `destroy=True` the hostname is not bound as a logical name, keeps the pending callbacks' names distinct and equal to the bound names |
| `VmSpec.NeverBoundNameFails` | integration-tests/features/environment.py:76-78 | after any series of `ensure_local_vm` calls, `get_hostname` of a name none of them used raises KeyError |
| `VmSpec.Close` | integration-tests/features/environment.py:80-82 | closing empties the callback stack, never adds or changes a binding, only appends commands, and raises at most once per callback |
| `VmSpec.CloseIsIdempotent` | integration-tests/features/environment.py:80-82 | closing a closed helper runs nothing and changes nothing |
| `VmSpec.CloseIgnoresCommandOutcomes` | integration-tests/features/environment.py:98-108 | the exit statuses of the halt and destroy commands have no effect on the state `close` leaves or the errors it raises |
| `VmSpec.CloseInReverseOrder` | integration-tests/features/environment.py:80-82 | when the pending callbacks name distinct names and those are exactly the bound names, `close` raises nothing, unbinds every name, and runs one command per callback, in reverse registration order, against that name's hostname; a successful `destroy=True` pre-clean breaks this condition (see `VmSpec.DestroyPrecleanLeavesDanglingCallback`) |
| `VmSpec.EnsureKeepsCovered` | integration-tests/features/environment.py:58-74 | whatever it returns, `ensure_local_vm` keeps every bound name covered by a pending callback naming it |
| `VmSpec.EnsuresKeepCovered` | integration-tests/features/environment.py:58-74 | after any series of `ensure_local_vm` calls, every bound name has a pending callback |
| `VmSpec.CloseUnbindsAll` | integration-tests/features/environment.py:80-82 | when every bound name has a pending callback, `close` leaves no name bound |
| `VmSpec.EnsuredHelperClosesUnbound` | integration-tests/features/environment.py:54-82 | closing a new helper after any series of `ensure_local_vm` calls, whatever they and the teardown commands returned, leaves no name bound |
| `VmSpec.UnboundCallbackRaises` | integration-tests/features/environment.py:80-108 | a pending callback whose name is not bound makes `close` raise KeyError for that name (`VmSpec.CloseUnbindsAll` shows every binding is still removed) |
| `VmSpec.DestroyPrecleanLeavesDanglingCallback` | integration-tests/features/environment.py:68-72 | a successful `destroy=True` call for a new name pops the hostname's binding but not the callback registered for it, so the next `close` raises KeyError for the hostname |
| `VmHelper.VirtualMachineHelper.constructor` | integration-tests/features/environment.py:54-56 | a new helper has no bindings, no callbacks and has run no command |
| `VmHelper.VirtualMachineHelper.EnsureLocalVm` | integration-tests/features/environment.py:58-74 | the new state and outcome are those of `VmSpec.EnsureLocalVm`; bound hostnames stay known definitions |
| `VmHelper.VirtualMachineHelper.GetHostname` | integration-tests/features/environment.py:76-78 | returns the bound hostname, or KeyError for an unbound name |
| `VmHelper.VirtualMachineHelper.Close` | integration-tests/features/environment.py:80-82 | the loop popping and running callbacks from the top of the stack leaves the state and errors of `VmSpec.Close` |
| `VmHelper.VirtualMachineHelper.VmUp` | integration-tests/features/environment.py:92-96 | state and outcome of `VmSpec.VmUp` |
| `VmHelper.VirtualMachineHelper.VmHalt` | integration-tests/features/environment.py:98-102 | state and outcome of `VmSpec.VmTeardown` for a halt; the hostname it runs against is a known definition |
| `VmHelper.VirtualMachineHelper.VmDestroy` | integration-tests/features/environment.py:104-108 | state and outcome of `VmSpec.VmTeardown` for a destroy; the hostname it runs against is a known definition |
| `Migration.Scanned` | integration-tests/features/environment.py:150-156 | the number of entries read is the first point by which both hosts have been seen, or the whole listing |
| `Migration.LastIp` | integration-tests/features/environment.py:151-154 | an address is kept for a host iff some entry read has that hostname |
| `Migration.LastIpIsLast` | integration-tests/features/environment.py:151-154 | the address kept is the first address of the last matching entry read |
| `Migration.FromVmListSpec` | integration-tests/features/environment.py:146-157 | `local_vm_count` is the listing's length; an address is returned for a host iff an entry read names it; when the scan stops early both addresses are found |
| `Migration.FromVmList` | integration-tests/features/environment.py:146-157 | the loop with its `break` returns the listing's length and, for each host, the address `LastIp` keeps over the `ScanLength` entries it reads |
| `Migration.MissingHostGivesNone` | integration-tests/features/environment.py:148-154 | `local_vm_count` is the listing's length; a host that no entry names gets `None` |
| `Migration.MissingTargetIsReadable` | integration-tests/features/environment.py:149-154 | a missing target cannot make the scan raise: the whole listing is read, and only matching source entries need an address |
| `Migration.UniqueHostnamesGiveOwnIp` | integration-tests/features/environment.py:150-154 | with unique hostnames, each matched host gets the first address of its own entry |
| `Migration.SameHostReadsFirstMatch` | integration-tests/features/environment.py:150-156 | with source host equal to target host, the scan stops at the first match and both addresses are that entry's first address |
| `Migration.LaterEntriesNeverRead` | integration-tests/features/environment.py:155-156 | once both hosts are seen the scan has stopped: any entries after that point leave its length and both addresses unchanged |
| `SkipDecision.SkipTestGroup` | integration-tests/features/environment.py:300-318 | returns the skip decision and calls `skip("Marked with @skip")` on the group exactly once when it is true, never otherwise |
| `SkipDecision.ShouldSkip` | integration-tests/features/environment.py:309-315 | skipped iff tagged `skip`, `skip` is not requested, and not (tagged `wip` and `skip`+`wip` requested) |
| `SkipDecision.EmptyFilterSkipsTagged` | integration-tests/features/environment.py:311-313 | with an empty filter, whatever its matcher would answer, exactly the groups tagged `skip` are skipped |
| `SkipDecision.WipOverrideNeedsWipTag` | integration-tests/features/environment.py:312-314 | a request for `skip` with `wip` has no effect on a group without the `wip` tag |

## Left out

- `VmSpec.RunCommand`: only the command's exit status is modelled. An exception raised while starting a command (`vagrant` not on the path, a missing working directory) or decoding its output propagates whatever `ignore_errors` says, and is not modelled. So a halt or destroy that raises after popping its binding, and an `up` that raises after vagrant succeeded (leaving the name unbound), are not modelled either.
- Running commands (`_run_command`, `_run_vagrant`, lines 20-35 and 84-90): subprocess I/O. A command is its entry in the `issued` log plus a flag for its exit status. Its output, the printed trace lines and the working directory are not modelled.
- `VmSpec.VmTeardown` and `VmSpec.Close`: do not model the lookup of the hostname's definition directory (line 87), which raises KeyError for an unknown hostname. They describe helpers whose bound hostnames are all known definitions (`Bindable`); `VmSpec.EnsureKeepsBindable` and the class's `Valid()` show every reachable helper is one.
- The `_VM_DEFS` directory listing (lines 43-46): filesystem I/O. The helper takes the set of known hostnames as a constructor parameter. Definition directories are not modelled.
- `_install_client` (lines 121-131): installs the CLI through pipsi. It is I/O only.
- `ClientHelper` (lines 160-209): runs the CLI with sudo, parses its JSON output, and times a run with a floating-point monotonic clock. Only the `from_vm_list` call it makes is modelled.
- `RequestsHelper` (lines 216-289): HTTP requests polled against a floating-point monotonic-clock deadline. This is network and clock I/O.
- The behave hooks (lines 320-371): framework plumbing around the suite, feature and scenario exit stacks.
- behave's tag-expression matcher (`active_tags.check`, lines 311 and 313) is not part of this model. Its two answers and the filter's truthiness are inputs.
- `VmSpec.Close`: returns every error the callbacks raised, in order. The way the standard library's exit stack chains them (it re-raises the last one, with the earlier ones as context) is not modelled.
- `Migration.FromVmList`: requires every matching entry the scan reads to have a non-empty `ip` list. It does not model the `IndexError` the source raises otherwise. It also does not model a listing entry that lacks the `hostname` or `ip` key.
