/**
 * What the check/start/wait loop of `create_tests_dict` and the loop of
 * `get_vm_info` promise, stated over the spec functions of `Enrichment`.
 */
module EnrichmentLemmas {
  import opened Outcomes
  import opened Text
  import opened Controller
  import opened TestsTree
  import opened Records
  import opened Enrichment

  /* ---------------------------------------------------------------------- */
  /* The state token of a `check` output                                     */
  /* ---------------------------------------------------------------------- */

  /** The token is what follows the `-----` rule, stripped, when the text holds no other dash. */
  lemma StateTokenOf(header: string, state: string)
    requires '-' !in header && '-' !in state
    ensures StateToken(header + StateRule + state) == Ok(Strip(state))
  {
    SplitFirst(header, StateRule, state);
    SplitNone(state, StateRule);
  }

  /** A `check` output in which `-----` occurs nowhere has no piece 1: indexing it raises. */
  lemma StateTokenNoRule(text: string)
    requires forall k :: 0 <= k <= |text| ==> !(StateRule <= text[k..])
    ensures StateToken(text) == Err(IndexError)
  {
    SplitNoOcc(text, StateRule);
  }

  /* ---------------------------------------------------------------------- */
  /* The check loop                                                          */
  /* ---------------------------------------------------------------------- */

  /** The `check` of `vm` answered and its state token is `Off`. */
  predicate ReportsOff(vm: VmEntry, oracle: Oracle) {
    var reply := oracle(Check, vm.name, vm.details.hvServer);
    reply.Output? && StateToken(reply.text) == Ok("Off")
  }

  /** A command of the check loop: `check` or `start`. */
  predicate BootCommand(e: Event) {
    e.Sent? && (e.request == Check || e.request == Start)
  }

  /** A command of `get_vm_info`: the details query or `stop`. */
  predicate EnrichCommand(e: Event) {
    e.Sent? && (e.request == Details || e.request == Stop)
  }

  /**
   * One turn of the check loop: a `check` that raises exits with 0 after that
   * one command; `start` is sent exactly when the check reported `Off`, and a
   * `start` that raises exits with 0 too; a check output without `-----`
   * raises `IndexError`. The flag is set only by a start that succeeded, and
   * the turn completes exactly when the check answers with a state token and,
   * for `Off`, the start answers too.
   */
  lemma CheckOneSpec(vm: VmEntry, oracle: Oracle)
    ensures var b := CheckOne(vm, oracle);
      var host := vm.details.hvServer;
      var reply := oracle(Check, vm.name, host);
      b.events[0] == Sent(Check, vm.name, host) &&
      (reply.Failed? ==> b.halt == Some(Exit(0)) && |b.events| == 1) &&
      (reply.Output? && StateToken(reply.text).Err? ==> b.halt == Some(Raised(IndexError))) &&
      (Sent(Start, vm.name, host) in b.events <==> ReportsOff(vm, oracle)) &&
      (ReportsOff(vm, oracle) && oracle(Start, vm.name, host).Failed? ==> b.halt == Some(Exit(0))) &&
      (forall e :: e in b.events ==> e in {Sent(Check, vm.name, host), Sent(Start, vm.name, host)}) &&
      (b.booting <==> ReportsOff(vm, oracle) && oracle(Start, vm.name, host).Output?) &&
      (b.halt.None? <==>
        (reply.Output? && StateToken(reply.text).Ok? &&
         (StateToken(reply.text).value == "Off" ==> oracle(Start, vm.name, host).Output?)))
  {
  }

  /** The check loop sends nothing but `check` and `start`. */
  lemma {:induction false} CheckPhaseCommands(vms: seq<VmEntry>, oracle: Oracle, n: nat)
    requires n <= |vms|
    ensures forall e :: e in CheckPhase(vms, oracle, n).events ==> BootCommand(e)
  {
    if n > 0 {
      CheckPhaseCommands(vms, oracle, n - 1);
      var prev := CheckPhase(vms, oracle, n - 1);
      if prev.halt.None? {
        var step := CheckOne(vms[n - 1], oracle);
        assert CheckPhase(vms, oracle, n).events == prev.events + step.events;
        assert forall e :: e in step.events ==> BootCommand(e);
      }
    }
  }

  /**
   * Over the first `n` VMs, if the check loop has not halted, it has checked
   * every one of them, started exactly those whose state token is `Off` (every
   * start succeeded), and the flag is set exactly when one of them was `Off`.
   */
  lemma {:induction false} CheckPhaseStarts(vms: seq<VmEntry>, oracle: Oracle, n: nat)
    requires n <= |vms|
    requires CheckPhase(vms, oracle, n).halt.None?
    ensures var b := CheckPhase(vms, oracle, n);
      (forall k :: 0 <= k < n ==> Sent(Check, vms[k].name, vms[k].details.hvServer) in b.events) &&
      (forall k :: 0 <= k < n && ReportsOff(vms[k], oracle) ==>
         Sent(Start, vms[k].name, vms[k].details.hvServer) in b.events) &&
      (forall vm, host :: Sent(Start, vm, host) in b.events ==>
         exists k :: 0 <= k < n && vms[k].name == vm && vms[k].details.hvServer == host && ReportsOff(vms[k], oracle)) &&
      (b.booting <==> exists k :: 0 <= k < n && ReportsOff(vms[k], oracle))
  {
    if n > 0 {
      var prev := CheckPhase(vms, oracle, n - 1);
      assert prev.halt.None?;
      CheckPhaseStarts(vms, oracle, n - 1);
      var vm := vms[n - 1];
      var step := CheckOne(vm, oracle);
      CheckOneSpec(vm, oracle);
      var b := CheckPhase(vms, oracle, n);
      assert b.events == prev.events + step.events;
      assert b.booting == (prev.booting || step.booting);
      assert step.halt.None?;
      assert step.booting <==> ReportsOff(vm, oracle);
      forall vm', host | Sent(Start, vm', host) in b.events
        ensures exists k :: 0 <= k < n && vms[k].name == vm' && vms[k].details.hvServer == host && ReportsOff(vms[k], oracle)
      {
        if Sent(Start, vm', host) !in prev.events {
          assert Sent(Start, vm', host) in step.events;
          assert ReportsOff(vms[n - 1], oracle);
        }
      }
    }
  }

  /** The check loop over the first `n` VMs completes exactly when every one of their turns does. */
  lemma {:induction false} CheckPhaseCompletes(vms: seq<VmEntry>, oracle: Oracle, n: nat)
    requires n <= |vms|
    ensures CheckPhase(vms, oracle, n).halt.None? <==>
      forall k :: 0 <= k < n ==> CheckOne(vms[k], oracle).halt.None?
  {
    if n > 0 {
      CheckPhaseCompletes(vms, oracle, n - 1);
    }
  }

  /**
   * The shared wait: the boot phase sleeps exactly once, for 60 seconds, as its
   * very last step, when the check loop has not halted and some VM was `Off`;
   * otherwise it does not sleep at all.
   */
  lemma BootPhaseWait(vms: seq<VmEntry>, oracle: Oracle)
    ensures var b := BootPhase(vms, oracle);
      var c := CheckPhase(vms, oracle, |vms|);
      var waits := if c.halt.None? && exists k :: 0 <= k < |vms| && ReportsOff(vms[k], oracle) then 1 else 0;
      multiset(b.events)[Wait(60)] == waits &&
      (waits == 1 ==> b.events[|b.events| - 1] == Wait(60)) &&
      b.halt == c.halt
  {
    var c := CheckPhase(vms, oracle, |vms|);
    CheckPhaseCommands(vms, oracle, |vms|);
    if c.halt.None? {
      CheckPhaseStarts(vms, oracle, |vms|);
    }
    assert !BootCommand(Wait(60));
    assert Wait(60) !in c.events;
    assert multiset(c.events)[Wait(60)] == 0;
  }

  /**
   * When a `check` raises `RuntimeError` for some VM, the check loop halts
   * (at that VM, or at an earlier one that already halted it).
   */
  lemma {:induction false} CheckFailureHalts(vms: seq<VmEntry>, oracle: Oracle, n: nat, k: nat)
    requires k < n <= |vms|
    requires oracle(Check, vms[k].name, vms[k].details.hvServer).Failed?
    ensures CheckPhase(vms, oracle, n).halt.Some?
  {
    if k < n - 1 {
      CheckFailureHalts(vms, oracle, n - 1, k);
    }
  }

  /* ---------------------------------------------------------------------- */
  /* `get_vm_info`                                                           */
  /* ---------------------------------------------------------------------- */

  /** The `vm_info` map `get_vm_info` builds from a details text. */
  function KvpInfo(text: string, parse: LineParser): map<string, string> {
    MergeKvp(map[], KvpLines(text), parse)
  }

  /**
   * Folding lines into a map with `update`: a key is present exactly when it
   * was there before or some line parses to it, and its value is the one of
   * the LAST line that parses to it.
   */
  lemma {:induction false} MergeKvpLastWins(info: map<string, string>, lines: seq<string>, parse: LineParser, key: string)
    ensures key in MergeKvp(info, lines, parse) <==>
      key in info || exists i :: 0 <= i < |lines| && parse(lines[i]).0 == key
    ensures forall i :: (0 <= i < |lines| && parse(lines[i]).0 == key &&
      (forall j :: i < j < |lines| ==> parse(lines[j]).0 != key)) ==>
      MergeKvp(info, lines, parse)[key] == parse(lines[i]).1
    ensures key in info && (forall i :: 0 <= i < |lines| ==> parse(lines[i]).0 != key) ==>
      MergeKvp(info, lines, parse)[key] == info[key]
    decreases |lines|
  {
    if lines != [] {
      var entry := parse(lines[0]);
      var rest := lines[1..];
      MergeKvpLastWins(info[entry.0 := entry.1], rest, parse, key);
      assert forall i :: 1 <= i < |lines| ==> lines[i] == rest[i - 1];
      if exists i :: 0 <= i < |rest| && parse(rest[i]).0 == key {
        var i :| 0 <= i < |rest| && parse(rest[i]).0 == key;
        assert parse(lines[i + 1]).0 == key;
      }
      forall i | 0 <= i < |lines| && parse(lines[i]).0 == key &&
        (forall j :: i < j < |lines| ==> parse(lines[j]).0 != key)
        ensures MergeKvp(info, lines, parse)[key] == parse(lines[i]).1
      {
        if i > 0 {
          assert parse(rest[i - 1]).0 == key;
          forall j | i - 1 < j < |rest| ensures parse(rest[j]).0 != key {
            assert rest[j] == lines[j + 1];
          }
        } else {
          forall j | 0 <= j < |rest| ensures parse(rest[j]).0 != key {
            assert rest[j] == lines[j + 1];
          }
        }
      }
    }
  }

  /** The text of a KVP dump whose every line ends in `\r\n`. */
  function CrLfLines(lines: seq<string>): string {
    if lines == [] then [] else lines[0] + "\r\n" + CrLfLines(lines[1..])
  }

  lemma {:induction false} SplitCrLfLines(lines: seq<string>)
    requires forall k :: 0 <= k < |lines| ==> '\r' !in lines[k]
    ensures Split(CrLfLines(lines), "\r\n") == lines + [""]
    decreases |lines|
  {
    if lines != [] {
      SplitCrLfLines(lines[1..]);
      SplitFirst(lines[0], "\r\n", CrLfLines(lines[1..]));
      assert lines == [lines[0]] + lines[1..];
    }
  }

  /**
   * `split('\r\n')[:-1]` on a dump whose lines each end in `\r\n` (and hold no
   * other `\r`) gives back exactly those lines: the empty piece after the last
   * line break is the one dropped.
   */
  lemma KvpLinesOf(lines: seq<string>)
    requires forall k :: 0 <= k < |lines| ==> '\r' !in lines[k]
    ensures KvpLines(CrLfLines(lines)) == lines
  {
    SplitCrLfLines(lines);
    assert (lines + [""])[..|lines|] == lines;
  }

  /**
   * A dump with `\n` line endings only is a single piece, and that piece is
   * dropped: no line is parsed at all.
   */
  lemma KvpLinesWithoutCr(text: string)
    requires '\r' !in text
    ensures KvpLines(text) == []
  {
    SplitNone(text, "\r\n");
  }

  /**
   * One turn of `get_vm_info`: a failing details query exits with 0 and an empty
   * one with 2, both before `stop`; otherwise `stop` is sent right after the
   * query, before any line is parsed. When the turn completes, `OSBuildNumber`
   * is copied and `OSName` is `OSName + " " + OSMajorVersion` of the parsed
   * map, and the rest of the record is kept. The turn completes exactly when
   * the query answers with text, `stop` answers, and the three keys are parsed.
   */
  lemma EnrichOneSpec(vm: VmEntry, oracle: Oracle, parse: LineParser)
    ensures var s := EnrichOne(vm, oracle, parse);
      var host := vm.details.hvServer;
      var reply := oracle(Details, vm.name, host);
      (reply.Failed? ==> s.halt == Some(Exit(0)) && s.events == [Sent(Details, vm.name, host)]) &&
      (reply == Output([]) ==> s.halt == Some(Exit(2)) && s.events == [Sent(Details, vm.name, host)]) &&
      (reply.Output? && reply.text != [] ==>
        s.events == [Sent(Details, vm.name, host), Sent(Stop, vm.name, host)]) &&
      (s.halt.None? ==>
        var info := KvpInfo(reply.text, parse);
        reply.Output? && oracle(Stop, vm.name, host).Output? &&
        {"OSBuildNumber", "OSName", "OSMajorVersion"} <= info.Keys &&
        s.details == vm.details.(osBuildNumber := Some(info["OSBuildNumber"]),
                                 osName := Some(info["OSName"] + " " + info["OSMajorVersion"]))) &&
      (s.halt.None? <==>
        (reply.Output? && reply.text != [] && oracle(Stop, vm.name, host).Output? &&
         {"OSBuildNumber", "OSName", "OSMajorVersion"} <= KvpInfo(reply.text, parse).Keys))
  {
  }

  /**
   * A dump of three `\r\n`-terminated lines that the parser reads as
   * `OSBuildNumber`, `OSName` and `OSMajorVersion` sets `OSBuildNumber` to the
   * first value and `OSName` to the second and third joined by a space: the
   * lines `OSBuildNumber: 19041`, `OSName: Windows`, `OSMajorVersion: 10` give
   * `19041` and `Windows 10`.
   */
  lemma EnrichOneOfDump(vm: VmEntry, oracle: Oracle, parse: LineParser,
                        l1: string, l2: string, l3: string, build: string, name: string, major: string)
    requires '\r' !in l1 && '\r' !in l2 && '\r' !in l3
    requires oracle(Details, vm.name, vm.details.hvServer) == Output(CrLfLines([l1, l2, l3]))
    requires oracle(Stop, vm.name, vm.details.hvServer).Output?
    requires parse(l1) == ("OSBuildNumber", build)
    requires parse(l2) == ("OSName", name)
    requires parse(l3) == ("OSMajorVersion", major)
    ensures var s := EnrichOne(vm, oracle, parse);
      s.halt.None? && s.details.osBuildNumber == Some(build) && s.details.osName == Some(name + " " + major)
  {
    var lines := [l1, l2, l3];
    KvpLinesOf(lines);
    assert |CrLfLines(lines)| >= 2;
    var info := map["OSBuildNumber" := build, "OSName" := name, "OSMajorVersion" := major];
    calc {
      KvpInfo(CrLfLines(lines), parse);
      MergeKvp(map[], lines, parse);
      { assert lines[1..] == [l2, l3]; }
      MergeKvp(map["OSBuildNumber" := build], [l2, l3], parse);
      { assert [l2, l3][1..] == [l3]; }
      MergeKvp(map["OSBuildNumber" := build, "OSName" := name], [l3], parse);
      { assert [l3][1..] == []; }
      info;
    }
  }

  /**
   * A non-empty dump with `\n` line endings only, such as
   * `OSBuildNumber: 19041\nOSName: Windows\nOSMajorVersion: 10\n`: the stop is
   * sent, no line is parsed, and the turn raises `KeyError('OSBuildNumber')`.
   */
  lemma EnrichOneLfOnly(vm: VmEntry, oracle: Oracle, parse: LineParser, text: string)
    requires oracle(Details, vm.name, vm.details.hvServer) == Output(text)
    requires text != [] && '\r' !in text
    requires oracle(Stop, vm.name, vm.details.hvServer).Output?
    ensures EnrichOne(vm, oracle, parse).halt == Some(Raised(KeyError("OSBuildNumber")))
    ensures Sent(Stop, vm.name, vm.details.hvServer) in EnrichOne(vm, oracle, parse).events
  {
    KvpLinesWithoutCr(text);
    assert KvpInfo(text, parse) == map[];
  }

  /**
   * Enrichment is idempotent: running a completed turn again on the record it
   * produced, against the same hypervisor, produces the same record.
   */
  lemma EnrichOneIdempotent(vm: VmEntry, oracle: Oracle, parse: LineParser)
    requires EnrichOne(vm, oracle, parse).halt.None?
    ensures var again := EnrichOne(VmEntry(vm.name, EnrichOne(vm, oracle, parse).details), oracle, parse);
      again.halt.None? && again.details == EnrichOne(vm, oracle, parse).details
  {
  }

  /** VM `k` after `get_vm_info` completes: its record rewritten by its own turn, name kept. */
  predicate EnrichedBy(before: VmEntry, after: VmEntry, oracle: Oracle, parse: LineParser) {
    var s := EnrichOne(before, oracle, parse);
    s.halt.None? && after == VmEntry(before.name, s.details) &&
    Sent(Stop, before.name, before.details.hvServer) in s.events
  }

  /** `get_vm_info` sends nothing but details queries and `stop`. */
  lemma {:induction false} EnrichPhaseCommands(vms: seq<VmEntry>, oracle: Oracle, parse: LineParser, n: nat)
    requires n <= |vms|
    ensures forall e :: e in EnrichPhase(vms, oracle, parse, n).events ==> EnrichCommand(e)
  {
    if n > 0 {
      EnrichPhaseCommands(vms, oracle, parse, n - 1);
      var prev := EnrichPhase(vms, oracle, parse, n - 1);
      if prev.halt.None? {
        var step := EnrichOne(vms[n - 1], oracle, parse);
        assert EnrichPhase(vms, oracle, parse, n).events == prev.events + step.events;
        assert forall e :: e in step.events ==> EnrichCommand(e);
      }
    }
  }

  /**
   * Over the first `n` VMs, when `get_vm_info` has not halted, every one of
   * those VMs has been stopped, whether or not the boot phase started it, and
   * carries the OS fields its own turn wrote; the records from `n` on are
   * untouched.
   */
  lemma {:induction false} EnrichPhaseComplete(vms: seq<VmEntry>, oracle: Oracle, parse: LineParser, n: nat)
    requires n <= |vms|
    requires EnrichPhase(vms, oracle, parse, n).halt.None?
    ensures var r := EnrichPhase(vms, oracle, parse, n);
      (forall k :: 0 <= k < n ==>
        EnrichedBy(vms[k], r.vms[k], oracle, parse) && Enriched(r.vms[k]) &&
        Sent(Stop, vms[k].name, vms[k].details.hvServer) in r.events) &&
      (forall k :: n <= k < |vms| ==> r.vms[k] == vms[k])
  {
    if n > 0 {
      var prev := EnrichPhase(vms, oracle, parse, n - 1);
      assert prev.halt.None?;
      EnrichPhaseComplete(vms, oracle, parse, n - 1);
      var vm := vms[n - 1];
      var step := EnrichOne(vm, oracle, parse);
      EnrichOneSpec(vm, oracle, parse);
      var r := EnrichPhase(vms, oracle, parse, n);
      assert r.events == prev.events + step.events;
      assert r.vms == prev.vms[n - 1 := VmEntry(vm.name, step.details)];
      assert step.halt.None?;
      assert EnrichedBy(vm, r.vms[n - 1], oracle, parse);
    }
  }

  /** `get_vm_info` over the first `n` VMs completes exactly when every one of their turns does. */
  lemma {:induction false} EnrichPhaseCompletes(vms: seq<VmEntry>, oracle: Oracle, parse: LineParser, n: nat)
    requires n <= |vms|
    ensures EnrichPhase(vms, oracle, parse, n).halt.None? <==>
      forall k :: 0 <= k < n ==> EnrichOne(vms[k], oracle, parse).halt.None?
  {
    if n > 0 {
      EnrichPhaseCompletes(vms, oracle, parse, n - 1);
    }
  }

  /* ---------------------------------------------------------------------- */
  /* `create_tests_dict`                                                     */
  /* ---------------------------------------------------------------------- */

  /**
   * The phases never interleave: every `check`, `start` and the wait come
   * before every details query and `stop`. When the boot phase halts (a
   * failed check or start exits with 0), no details query is sent, there is
   * no wait, and the VM records are as parsed.
   */
  lemma CreateTestsDictOrder(tree: TestTree, oracle: Oracle, parse: LineParser)
    ensures var run := CreateTestsDictSpec(tree, oracle, parse);
      forall i, j :: (0 <= i < |run.events| && 0 <= j < |run.events| &&
        EnrichCommand(run.events[i]) && !EnrichCommand(run.events[j])) ==> j < i
    ensures var boot := CheckPhase(tree.vms, oracle, |tree.vms|);
      var run := CreateTestsDictSpec(tree, oracle, parse);
      boot.halt.Some? ==> (run.halt == boot.halt && run.vms == tree.vms &&
        forall e :: e in run.events ==> BootCommand(e))
  {
    var run := CreateTestsDictSpec(tree, oracle, parse);
    var boot := BootPhase(tree.vms, oracle);
    var checks := CheckPhase(tree.vms, oracle, |tree.vms|);
    CheckPhaseCommands(tree.vms, oracle, |tree.vms|);
    forall k | 0 <= k < |boot.events|
      ensures !EnrichCommand(boot.events[k])
    {
      if k < |checks.events| {
        assert boot.events[k] == checks.events[k] && checks.events[k] in checks.events;
      }
    }
    if boot.halt.None? {
      var enrich := EnrichPhase(tree.vms, oracle, parse, |tree.vms|);
      EnrichPhaseCommands(tree.vms, oracle, parse, |tree.vms|);
      assert run.events == boot.events + enrich.events;
      assert forall k :: 0 <= k < |enrich.events| ==> EnrichCommand(enrich.events[k]);
      assert forall k :: 0 <= k < |run.events| ==>
        (EnrichCommand(run.events[k]) <==> k >= |boot.events|);
    } else {
      assert forall k :: 0 <= k < |run.events| ==> !EnrichCommand(run.events[k]);
    }
  }

  /**
   * A `check` that raises `RuntimeError` for any VM stops the run before any
   * record could be assembled: the run halts and the VM records are as parsed.
   */
  lemma CreateTestsDictFailFast(tree: TestTree, oracle: Oracle, parse: LineParser, k: nat)
    requires k < |tree.vms|
    requires oracle(Check, tree.vms[k].name, tree.vms[k].details.hvServer).Failed?
    ensures CreateTestsDictSpec(tree, oracle, parse).halt.Some?
    ensures CreateTestsDictSpec(tree, oracle, parse).vms == tree.vms
  {
    CheckFailureHalts(tree.vms, oracle, |tree.vms|, k);
  }

  /** The pairs with a result depend on the VM names alone, not on their records. */
  lemma {:induction false} PairsByNames(tree: TestTree, other: TestTree, i: nat, j: nat)
    requires other.tests == tree.tests && other.logDir == tree.logDir && |other.vms| == |tree.vms|
    requires forall k :: 0 <= k < |tree.vms| ==> other.vms[k].name == tree.vms[k].name
    requires Position(tree, i, j)
    ensures Pairs(other, i, j) == Pairs(tree, i, j)
    decreases i, j
  {
    if j == 0 {
      if i > 0 {
        PairsByNames(tree, other, i - 1, |tree.vms|);
      }
    } else {
      PairsByNames(tree, other, i, j - 1);
    }
  }

  /**
   * Enrichment fully precedes assembly: when `create_tests_dict` completes,
   * every VM carries its OS fields, so `create_tests_list` on the enriched
   * object raises only if the timestamp does not parse, and otherwise emits
   * one record per (test, VM) pair with a result, the same pairs as before
   * enrichment.
   */
  lemma PipelineAssembles(tree: TestTree, oracle: Oracle, parse: LineParser)
    requires CreateTestsDictSpec(tree, oracle, parse).halt.None?
    requires FormatDate(tree.timestamp).Some?
    ensures var enriched := tree.(vms := CreateTestsDictSpec(tree, oracle, parse).vms);
      ResultedPairs(enriched) == ResultedPairs(tree) &&
      Assemble(enriched).Ok? && |Assemble(enriched).value| == |ResultedPairs(tree)|
  {
    var run := CreateTestsDictSpec(tree, oracle, parse);
    var enriched := tree.(vms := run.vms);
    EnrichPhaseComplete(tree.vms, oracle, parse, |tree.vms|);
    PairsByNames(tree, enriched, |tree.tests|, 0);
    forall p | p in ResultedPairs(enriched)
      ensures Enriched(enriched.vms[p.1])
    {
      PairsMember(enriched, |tree.tests|, 0, p);
    }
    AssembleOk(enriched);
    AssembleRecords(enriched);
  }
}
