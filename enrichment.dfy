/**
 * The VM half of persist.py: the check/start/wait loop of `create_tests_dict`
 * and `get_vm_info`, which fetches each VM's KVP dump, stops the VM and writes
 * the guest OS fields into its record.
 *
 * A run either reaches its end or halts: `sys.exit(code)` or an exception that
 * nothing catches. Each spec function below returns the commands it sends, in
 * order, together with the new VM records and the halt, if any.
 */
module Enrichment {
  import opened Outcomes
  import opened Text
  import opened Controller
  import opened TestsTree

  /** Seconds `create_tests_dict` sleeps once when it has started at least one VM. */
  const BootWaitSeconds: nat := 60

  /** The marker line under the `State` header of the `check` output. */
  const StateRule: string := "-----"

  /** `ParseXML.parse_from_string`: one line of the KVP dump to a (key, value) pair. */
  type LineParser = string -> (string, string)

  /**
   * The power state in a `check` output: the text after the first `-----` and
   * before the next one, stripped. Without any `-----` the index `[1]` raises.
   */
  function StateToken(text: string): Result<string> {
    var parts := Split(text, StateRule);
    if |parts| < 2 then Err(IndexError) else Ok(Strip(parts[1]))
  }

  /** What the check loop has done so far: the commands sent, whether a start succeeded, and the halt. */
  datatype Boot = Boot(events: seq<Event>, booting: bool, halt: Option<Halt>)

  /**
   * One turn of the check loop: `check` the VM; if its state is `Off`, `start` it.
   * A failed command exits with code 0; a `check` output without `-----` raises.
   */
  function CheckOne(vm: VmEntry, oracle: Oracle): Boot {
    var host := vm.details.hvServer;
    var check := [Sent(Check, vm.name, host)];
    match oracle(Check, vm.name, host)
    case Failed => Boot(check, false, Some(Exit(0)))
    case Output(text) =>
      match StateToken(text)
      case Err(e) => Boot(check, false, Some(Raised(e)))
      case Ok(state) =>
        if state != "Off" then Boot(check, false, None)
        else
          var start := check + [Sent(Start, vm.name, host)];
          if oracle(Start, vm.name, host).Failed? then Boot(start, false, Some(Exit(0)))
          else Boot(start, true, None)
  }

  /**
   * A loop over the first `n` VMs whose body is `turn`: the commands add up, a
   * single successful start sets the flag, and after a halt nothing more happens.
   */
  function Checks(vms: seq<VmEntry>, turn: VmEntry -> Boot, n: nat): Boot
    requires n <= |vms|
  {
    if n == 0 then Boot([], false, None)
    else
      var b := Checks(vms, turn, n - 1);
      if b.halt.Some? then b
      else
        var step := turn(vms[n - 1]);
        Boot(b.events + step.events, b.booting || step.booting, step.halt)
  }

  /** The body of the check loop, as a function of the VM. */
  function CheckTurn(oracle: Oracle): VmEntry -> Boot {
    vm => CheckOne(vm, oracle)
  }

  /** The check loop over the first `n` VMs. */
  function CheckPhase(vms: seq<VmEntry>, oracle: Oracle, n: nat): Boot
    requires n <= |vms|
  {
    Checks(vms, CheckTurn(oracle), n)
  }

  /** The check loop over every VM, followed by the single shared wait when some VM was started. */
  function BootPhase(vms: seq<VmEntry>, oracle: Oracle): Boot {
    var b := CheckPhase(vms, oracle, |vms|);
    if b.halt.None? && b.booting then b.(events := b.events + [Wait(BootWaitSeconds)]) else b
  }

  /** `vm_values.split('\r\n')[:-1]`: the pieces between `\r\n` separators, the last piece dropped. */
  function KvpLines(text: string): seq<string> {
    var pieces := Split(text, "\r\n");
    pieces[..|pieces| - 1]
  }

  /** `info` after `update`-ing it with every parsed line in turn. */
  function MergeKvp(info: map<string, string>, lines: seq<string>, parse: LineParser): map<string, string>
    decreases |lines|
  {
    if lines == [] then info
    else
      var entry := parse(lines[0]);
      MergeKvp(info[entry.0 := entry.1], lines[1..], parse)
  }

  /** What enriching one VM has done: the commands sent, the VM's record afterwards, and the halt. */
  datatype VmStep = VmStep(events: seq<Event>, details: VmRecord, halt: Option<Halt>)

  /**
   * The end of one turn of `get_vm_info`, once `vm_info` is built: copy
   * `OSBuildNumber`, then compose `OSName` from `OSName` and `OSMajorVersion`.
   * A missing key raises `KeyError`; `OSBuildNumber` stays written when a later key is missing.
   */
  function WriteOsFields(events: seq<Event>, d: VmRecord, info: map<string, string>): VmStep {
    if "OSBuildNumber" !in info then VmStep(events, d, Some(Raised(KeyError("OSBuildNumber"))))
    else
      var built := d.(osBuildNumber := Some(info["OSBuildNumber"]));
      if "OSName" !in info then VmStep(events, built, Some(Raised(KeyError("OSName"))))
      else if "OSMajorVersion" !in info then VmStep(events, built, Some(Raised(KeyError("OSMajorVersion"))))
      else VmStep(events, built.(osName := Some(info["OSName"] + " " + info["OSMajorVersion"])), None)
  }

  /**
   * One turn of `get_vm_info`: fetch the details (a failure exits with 0, empty
   * output with 2), stop the VM (a failure raises), parse the dump and write the
   * OS fields.
   */
  function EnrichOne(vm: VmEntry, oracle: Oracle, parse: LineParser): VmStep {
    var host := vm.details.hvServer;
    var ask := [Sent(Details, vm.name, host)];
    match oracle(Details, vm.name, host)
    case Failed => VmStep(ask, vm.details, Some(Exit(0)))
    case Output(text) =>
      if text == [] then VmStep(ask, vm.details, Some(Exit(2)))
      else
        var stop := ask + [Sent(Stop, vm.name, host)];
        if oracle(Stop, vm.name, host).Failed? then VmStep(stop, vm.details, Some(Raised(RuntimeError)))
        else WriteOsFields(stop, vm.details, MergeKvp(map[], KvpLines(text), parse))
  }

  /** What a stretch of the run has done: the commands sent, the VM records afterwards, and the halt. */
  datatype Run = Run(events: seq<Event>, vms: seq<VmEntry>, halt: Option<Halt>)

  /**
   * A loop over the first `n` VMs whose body is `turn`, each record rewritten
   * where it stands; after a halt nothing more happens.
   */
  function Sweep(vms: seq<VmEntry>, turn: VmEntry -> VmStep, n: nat): (r: Run)
    requires n <= |vms|
    ensures |r.vms| == |vms|
  {
    if n == 0 then Run([], vms, None)
    else
      var e := Sweep(vms, turn, n - 1);
      if e.halt.Some? then e
      else
        var step := turn(vms[n - 1]);
        Run(e.events + step.events, e.vms[n - 1 := VmEntry(vms[n - 1].name, step.details)], step.halt)
  }

  /** The body of the `get_vm_info` loop, as a function of the VM. */
  function EnrichTurn(oracle: Oracle, parse: LineParser): VmEntry -> VmStep {
    vm => EnrichOne(vm, oracle, parse)
  }

  /** `turn` is the body of the `get_vm_info` loop for the given hypervisor and line parser. */
  ghost predicate IsEnrichTurn(turn: VmEntry -> VmStep, oracle: Oracle, parse: LineParser) {
    forall vm {:trigger EnrichOne(vm, oracle, parse)} :: turn(vm) == EnrichOne(vm, oracle, parse)
  }

  lemma EnrichTurnIs(oracle: Oracle, parse: LineParser)
    ensures IsEnrichTurn(EnrichTurn(oracle, parse), oracle, parse)
  {
  }

  /** `get_vm_info` over the first `n` VMs. */
  function EnrichPhase(vms: seq<VmEntry>, oracle: Oracle, parse: LineParser, n: nat): Run
    requires n <= |vms|
  {
    Sweep(vms, EnrichTurn(oracle, parse), n)
  }

  /** `create_tests_dict` after parsing: the boot phase, then, unless it halted, `get_vm_info`. */
  function CreateTestsDictSpec(tree: TestTree, oracle: Oracle, parse: LineParser): Run {
    var boot := BootPhase(tree.vms, oracle);
    if boot.halt.Some? then Run(boot.events, tree.vms, boot.halt)
    else
      var enrich := EnrichPhase(tree.vms, oracle, parse, |tree.vms|);
      Run(boot.events + enrich.events, enrich.vms, enrich.halt)
  }

  /** Once the check loop has halted, later VMs change nothing. */
  lemma {:induction false} ChecksHalted(vms: seq<VmEntry>, turn: VmEntry -> Boot, n: nat, m: nat)
    requires n <= m <= |vms|
    requires Checks(vms, turn, n).halt.Some?
    ensures Checks(vms, turn, m) == Checks(vms, turn, n)
    decreases m
  {
    if m > n {
      ChecksHalted(vms, turn, n, m - 1);
    }
  }

  /**
   * One turn of the check loop, in terms of the spec: the commands sent for VM
   * `i` extend the spec's trace for `i` VMs to the one for `i + 1`, and a halt
   * there is the halt of the whole loop.
   */
  lemma ChecksAdvance(vms: seq<VmEntry>, turn: VmEntry -> Boot, i: nat, step: Boot,
                      trace0: seq<Event>, before: seq<Event>, after: seq<Event>)
    requires i < |vms| && Checks(vms, turn, i).halt.None? && step == turn(vms[i])
    requires before == trace0 + Checks(vms, turn, i).events && after == before + step.events
    ensures var b := Checks(vms, turn, i + 1);
      after == trace0 + b.events && b.halt == step.halt &&
      b.booting == (Checks(vms, turn, i).booting || step.booting)
    ensures step.halt.Some? ==> Checks(vms, turn, |vms|) == Checks(vms, turn, i + 1)
  {
    var prior := Checks(vms, turn, i).events;
    assert Checks(vms, turn, i + 1).events == prior + step.events;
    assert after == trace0 + (prior + step.events);
    if step.halt.Some? {
      ChecksHalted(vms, turn, i + 1, |vms|);
    }
  }

  /** Once enrichment has halted, later VMs change nothing. */
  lemma {:induction false} SweepHalted(vms: seq<VmEntry>, turn: VmEntry -> VmStep, n: nat, m: nat)
    requires n <= m <= |vms|
    requires Sweep(vms, turn, n).halt.Some?
    ensures Sweep(vms, turn, m) == Sweep(vms, turn, n)
    decreases m
  {
    if m > n {
      SweepHalted(vms, turn, n, m - 1);
    }
  }

  /** A sweep over the first `n` VMs leaves the records from `n` on as they were. */
  lemma {:induction false} SweepFrame(vms: seq<VmEntry>, turn: VmEntry -> VmStep, n: nat, k: nat)
    requires n <= k < |vms|
    ensures Sweep(vms, turn, n).vms[k] == vms[k]
  {
    if n > 0 {
      SweepFrame(vms, turn, n - 1, k);
    }
  }

  /**
   * One turn of the `get_vm_info` loop, in terms of the spec: the state after
   * VM `i` is the spec's state after `i + 1` VMs, and a halt there is the halt
   * of the whole loop.
   */
  lemma SweepAdvance(vms: seq<VmEntry>, turn: VmEntry -> VmStep, i: nat, step: VmStep,
                     trace0: seq<Event>, before: seq<Event>, after: seq<Event>,
                     current: seq<VmEntry>, updated: seq<VmEntry>)
    requires i < |vms| && Sweep(vms, turn, i).halt.None? && step == turn(vms[i])
    requires before == trace0 + Sweep(vms, turn, i).events && after == before + step.events
    requires current == Sweep(vms, turn, i).vms
    requires updated == current[i := VmEntry(vms[i].name, step.details)]
    ensures var e := Sweep(vms, turn, i + 1);
      after == trace0 + e.events && updated == e.vms && step.halt == e.halt
    ensures step.halt.Some? ==> Sweep(vms, turn, |vms|) == Sweep(vms, turn, i + 1)
  {
    var prior := Sweep(vms, turn, i).events;
    assert Sweep(vms, turn, i + 1).events == prior + step.events;
    assert after == trace0 + (prior + step.events);
    if step.halt.Some? {
      SweepHalted(vms, turn, i + 1, |vms|);
    }
  }

  /** The loop of `get_vm_info` that folds the parsed lines into `vm_info`. */
  method ParseKvp(lines: seq<string>, parse: LineParser) returns (info: map<string, string>)
    ensures info == MergeKvp(map[], lines, parse)
  {
    info := map[];
    var k := 0;
    while k < |lines|
      invariant k <= |lines|
      invariant MergeKvp(info, lines[k..], parse) == MergeKvp(map[], lines, parse)
    {
      var entry := parse(lines[k]);
      assert lines[k..][1..] == lines[k + 1..];
      info := info[entry.0 := entry.1];
      k := k + 1;
    }
  }

  /** The body of the loop of `get_vm_info` for the VM at index `i`. */
  method EnrichVm(obj: TestsObject, ctl: VmController, parse: LineParser, ghost turn: VmEntry -> VmStep, i: nat)
    returns (halt: Option<Halt>)
    requires i < |obj.vms| && IsEnrichTurn(turn, ctl.oracle, parse)
    modifies obj, ctl
    ensures var step := turn(old(obj.vms[i]));
      halt == step.halt && ctl.trace == old(ctl.trace) + step.events &&
      obj.vms == old(obj.vms)[i := VmEntry(old(obj.vms[i]).name, step.details)]
  {
    var name, details := obj.vms[i].name, obj.vms[i].details;
    assert turn(obj.vms[i]) == EnrichOne(obj.vms[i], ctl.oracle, parse);
    var host := details.hvServer;
    var reply := ctl.Send(Details, name, host);
    assert old(obj.vms)[i := old(obj.vms)[i]] == old(obj.vms);
    if reply.Failed? {
      return Some(Exit(0));
    }
    if reply.text == [] {
      return Some(Exit(2));
    }
    var stopped := ctl.Send(Stop, name, host);
    if stopped.Failed? {
      return Some(Raised(RuntimeError));
    }
    var info := ParseKvp(KvpLines(reply.text), parse);
    if "OSBuildNumber" !in info {
      return Some(Raised(KeyError("OSBuildNumber")));
    }
    details := details.(osBuildNumber := Some(info["OSBuildNumber"]));
    obj.vms := obj.vms[i := VmEntry(name, details)];
    if "OSName" !in info {
      return Some(Raised(KeyError("OSName")));
    }
    if "OSMajorVersion" !in info {
      return Some(Raised(KeyError("OSMajorVersion")));
    }
    details := details.(osName := Some(info["OSName"] + " " + info["OSMajorVersion"]));
    obj.vms := obj.vms[i := VmEntry(name, details)];
    halt := None;
  }

  /**
   * `get_vm_info`: for each VM, fetch its details, stop it, fold the parsed KVP
   * lines into `vm_info`, and write the OS fields into the VM's record in place.
   */
  method GetVmInfo(obj: TestsObject, ctl: VmController, parse: LineParser, ghost turn: VmEntry -> VmStep)
    returns (halt: Option<Halt>)
    requires IsEnrichTurn(turn, ctl.oracle, parse)
    modifies obj, ctl
    ensures var run := Sweep(old(obj.vms), turn, |old(obj.vms)|);
      ctl.trace == old(ctl.trace) + run.events && obj.vms == run.vms && halt == run.halt
  {
    ghost var vms0 := obj.vms;
    ghost var trace0 := ctl.trace;
    var i := 0;
    while i < |obj.vms|
      invariant |obj.vms| == |vms0| && i <= |vms0|
      invariant Sweep(vms0, turn, i).halt.None?
      invariant ctl.trace == trace0 + Sweep(vms0, turn, i).events
      invariant obj.vms == Sweep(vms0, turn, i).vms
    {
      SweepFrame(vms0, turn, i, i);
      ghost var before := ctl.trace;
      ghost var current := obj.vms;
      halt := EnrichVm(obj, ctl, parse, turn, i);
      SweepAdvance(vms0, turn, i, turn(vms0[i]), trace0, before, ctl.trace, current, obj.vms);
      if halt.Some? {
        return;
      }
      i := i + 1;
    }
    halt := None;
  }

  /** The body of the check loop of `create_tests_dict` for one VM. */
  method CheckVm(ctl: VmController, vm: VmEntry) returns (started: bool, halt: Option<Halt>)
    modifies ctl
    ensures var step := CheckOne(vm, ctl.oracle);
      started == step.booting && halt == step.halt && ctl.trace == old(ctl.trace) + step.events
  {
    started := false;
    var name, host := vm.name, vm.details.hvServer;
    var reply := ctl.Send(Check, name, host);
    if reply.Failed? {
      return false, Some(Exit(0));
    }
    var state := StateToken(reply.text);
    if state.Err? {
      return false, Some(Raised(state.error));
    }
    if state.value == "Off" {
      var response := ctl.Send(Start, name, host);
      if response.Failed? {
        return false, Some(Exit(0));
      }
      started := true;
    }
    halt := None;
  }

  /**
   * The check loop of `create_tests_dict`: check every VM and start those that
   * are `Off`; `isBooting` tells whether a start succeeded.
   */
  method CheckVms(ctl: VmController, vms: seq<VmEntry>) returns (isBooting: bool, halt: Option<Halt>)
    modifies ctl
    ensures var boot := CheckPhase(vms, ctl.oracle, |vms|);
      ctl.trace == old(ctl.trace) + boot.events && halt == boot.halt && (halt.None? ==> isBooting == boot.booting)
  {
    ghost var trace0 := ctl.trace;
    ghost var turn := CheckTurn(ctl.oracle);
    isBooting := false;
    var i := 0;
    while i < |vms|
      invariant i <= |vms|
      invariant Checks(vms, turn, i).halt.None?
      invariant ctl.trace == trace0 + Checks(vms, turn, i).events
      invariant isBooting == Checks(vms, turn, i).booting
    {
      ghost var before := ctl.trace;
      var started;
      started, halt := CheckVm(ctl, vms[i]);
      ChecksAdvance(vms, turn, i, turn(vms[i]), trace0, before, ctl.trace);
      if halt.Some? {
        return;
      }
      if started {
        isBooting := true;
      }
      i := i + 1;
    }
    halt := None;
  }

  /**
   * `create_tests_dict` once the tests object is parsed: check every VM and
   * start those that are `Off`, sleep once if any was started, then enrich.
   */
  method CreateTestsDict(obj: TestsObject, ctl: VmController, parse: LineParser) returns (halt: Option<Halt>)
    modifies obj, ctl
    ensures var run := CreateTestsDictSpec(old(obj.Tree()), ctl.oracle, parse);
      ctl.trace == old(ctl.trace) + run.events && obj.Tree() == old(obj.Tree()).(vms := run.vms) &&
      halt == run.halt
  {
    var isBooting;
    isBooting, halt := CheckVms(ctl, obj.vms);
    if halt.Some? {
      return;
    }
    if isBooting {
      ctl.Sleep(BootWaitSeconds);
    }
    EnrichTurnIs(ctl.oracle, parse);
    halt := GetVmInfo(obj, ctl, parse, EnrichTurn(ctl.oracle, parse));
  }
}
