/**
 * `VirtualMachineHelper` of integration-tests/features/environment.py: a
 * class whose methods update its bindings, its exit stack of teardown
 * callbacks and the log of vagrant commands in place. Each method is proved
 * to do what the matching function of VmSpec says; the properties of those
 * functions are proved in vm_spec.dfy.
 */
module VmHelper {
  import opened Wrappers
  import opened VmSpec

  class VirtualMachineHelper {
    /** The keys of `_VM_DEFS`: hostnames of the VM definitions found at start-up. */
    const definitions: set<string>
    /** Logical name to hostname. */
    var machines: map<string, string>
    /** The exit stack's callbacks, in registration order. */
    var pending: seq<Teardown>
    /** The vagrant commands run so far. */
    var issued: seq<Command>

    function State(): Helper
      reads this
    {
      Helper(machines, pending, issued)
    }

    ghost predicate Valid()
      reads this
    {
      Bindable(definitions, State())
    }

    /** `__init__`: no bindings, an empty exit stack. */
    constructor (definitions: set<string>)
      ensures Valid()
      ensures this.definitions == definitions
      ensures State() == Empty
    {
      this.definitions := definitions;
      machines := map[];
      pending := [];
      issued := [];
    }

    /** `ensure_local_vm`; `cleanOk` and `upOk` are the outcomes of its vagrant commands. */
    method EnsureLocalVm(name: string, definition: string, destroy: bool, cleanOk: bool, upOk: bool)
      returns (r: Outcome<Error>)
      requires Valid()
      modifies this
      ensures Valid()
      ensures (State(), r) == VmSpec.EnsureLocalVm(definitions, old(State()), name, definition, destroy, cleanOk, upOk)
    {
      var hostname := HostnameFor(definition);
      if hostname !in definitions {
        return Fail(UnknownImage(definition));
      }
      if destroy {
        r := VmDestroy(hostname, cleanOk);
        if r.Fail? {
          return;
        }
      }
      r := VmUp(name, hostname, upOk);
      if r.Fail? {
        return;
      }
      if destroy {
        pending := pending + [Destroy(name)];
      } else {
        pending := pending + [Halt(name)];
      }
    }

    /** `get_hostname` */
    method GetHostname(name: string) returns (r: Result<string, Error>)
      ensures r == VmSpec.GetHostname(State(), name)
    {
      if name in machines {
        r := Success(machines[name]);
      } else {
        r := Failure(KeyError(name));
      }
    }

    /**
     * `close`: unwind the exit stack, running every callback; returns the
     * errors the callbacks raised, in order (close raises iff there is one).
     * `outcomes[k]` is the outcome of the command of the k-th registered callback.
     */
    method Close(outcomes: seq<bool>) returns (errors: seq<Error>)
      requires Valid()
      requires |outcomes| == |pending|
      modifies this
      ensures Valid()
      ensures (State(), errors) == VmSpec.Close(old(State()), outcomes)
    {
      errors := [];
      ghost var whole := VmSpec.Close(State(), outcomes);
      assert outcomes[..|pending|] == outcomes;
      assert [] + whole.1 == whole.1;
      while pending != []
        invariant Valid()
        invariant |pending| <= |outcomes|
        invariant ClosesTo(State(), outcomes, errors, whole)
        decreases |pending|
      {
        ClosesToStep(State(), outcomes, errors, whole);
        var k := |pending| - 1;
        var action := pending[k];
        pending := pending[..k];
        var r;
        match action {
          case Halt(n) =>
            r := VmHalt(n, outcomes[k]);
          case Destroy(n) =>
            r := VmDestroy(n, outcomes[k]);
        }
        errors := errors + Errors(r);
      }
      assert VmSpec.Close(State(), outcomes[..0]) == (State(), []);
      assert errors + [] == errors;
    }

    /** `_vm_up` */
    method VmUp(name: string, hostname: string, succeeded: bool) returns (r: Outcome<Error>)
      requires Valid()
      requires hostname in definitions
      modifies this
      ensures Valid()
      ensures (State(), r) == VmSpec.VmUp(old(State()), name, hostname, succeeded)
    {
      issued := issued + [VagrantUp(hostname)];
      r := RunCommand(VagrantUp(hostname), false, succeeded);
      if r.Pass? {
        machines := machines[name := hostname];
      }
    }

    /** `_vm_halt` */
    method VmHalt(name: string, succeeded: bool) returns (r: Outcome<Error>)
      requires Valid()
      modifies this
      ensures Valid()
      ensures (State(), r) == VmSpec.VmTeardown(old(State()), Halt(name), succeeded)
    {
      if name !in machines {
        return Fail(KeyError(name));
      }
      var hostname := machines[name];
      machines := machines - {name};
      // `_run_vagrant` looks up the hostname's definition directory
      assert hostname in definitions;
      issued := issued + [VagrantHalt(hostname)];
      r := RunCommand(VagrantHalt(hostname), true, succeeded);
    }

    /** `_vm_destroy` */
    method VmDestroy(name: string, succeeded: bool) returns (r: Outcome<Error>)
      requires Valid()
      modifies this
      ensures Valid()
      ensures (State(), r) == VmSpec.VmTeardown(old(State()), Destroy(name), succeeded)
    {
      if name !in machines {
        return Fail(KeyError(name));
      }
      var hostname := machines[name];
      machines := machines - {name};
      // `_run_vagrant` looks up the hostname's definition directory
      assert hostname in definitions;
      issued := issued + [VagrantDestroy(hostname)];
      r := RunCommand(VagrantDestroy(hostname), true, succeeded);
    }
  }
}
