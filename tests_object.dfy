/**
 * The tests object that persist.py builds from the parsed XML descriptor and
 * log file: suite name, raw timestamp, log directory, per-test results and the
 * VM records. Python dictionaries become sequences of named entries (their
 * iteration order is whatever the sequence says). That the names are distinct,
 * as dictionary keys are, is assumed and not checked.
 */
module TestsTree {
  import opened Outcomes

  /**
   * One VM dictionary. The four fields the XML parser fills are always there;
   * `OSBuildNumber` and `OSName` stay absent until `get_vm_info` writes them.
   */
  datatype VmRecord = VmRecord(
    hvServer: string,
    testLocation: string,
    os: string,
    hostOSVersion: string,
    osBuildNumber: Option<string>,
    osName: Option<string>)

  datatype VmEntry = VmEntry(name: string, details: VmRecord)

  /**
   * One test: its name and its `results` dictionary from VM name to outcome.
   * A test without a `results` entry behaves like one with an empty map.
   */
  datatype TestEntry = TestEntry(name: string, results: map<string, string>)

  /** `tests_object` after parsing; `logDir` is `None` when the log parser set none. */
  datatype TestTree = TestTree(
    testSuite: string,
    timestamp: string,
    logDir: Option<string>,
    tests: seq<TestEntry>,
    vms: seq<VmEntry>)

  /** A VM record that enrichment has completed. */
  predicate Enriched(vm: VmEntry) {
    vm.details.osBuildNumber.Some? && vm.details.osName.Some?
  }

  /**
   * The tests object as a mutable structure: only `vms` changes after parsing,
   * when enrichment rewrites the VM records in place.
   */
  class TestsObject {
    const testSuite: string
    const timestamp: string
    const logDir: Option<string>
    const tests: seq<TestEntry>
    var vms: seq<VmEntry>

    /** The object the XML and log parsers produce. */
    constructor (tree: TestTree)
      ensures Tree() == tree
    {
      testSuite := tree.testSuite;
      timestamp := tree.timestamp;
      logDir := tree.logDir;
      tests := tree.tests;
      vms := tree.vms;
    }

    /** The current contents, as a value. */
    function Tree(): TestTree
      reads this
    {
      TestTree(testSuite, timestamp, logDir, tests, vms)
    }
  }
}
