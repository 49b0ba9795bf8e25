/**
 * The record-assembly half of persist.py: `format_date` and
 * `create_tests_list`, which flattens the tests x VMs cross product into rows of
 * the `TestResults` table.
 */
module Records {
  import opened Outcomes
  import opened Text
  import opened TestsTree

  /**
   * `format_date`: take the first whitespace-separated token, cut it at `/` and
   * join parts 2, 0 and 1 with nothing between them. No padding is added.
   * `None` stands for the `IndexError` raised on a blank string or on a token
   * with fewer than three parts.
   */
  function FormatDate(testDate: string): Option<string> {
    var words := Words(testDate);
    if words == [] then None
    else
      var parts := Split(words[0], "/");
      if |parts| < 3 then None else Some(parts[2] + parts[0] + parts[1])
  }

  /** A timestamp `MM/DD/YYYY ...` becomes `YYYYMMDD`, the pieces copied as they are. */
  lemma FormatDateOf(month: string, day: string, year: string, rest: string)
    requires '/' !in month && '/' !in day && '/' !in year
    requires NoSpace(month + "/" + day + "/" + year)
    requires rest == [] || IsSpace(rest[0])
    ensures FormatDate(month + "/" + day + "/" + year + rest) == Some(year + month + day)
  {
    var token := month + "/" + day + "/" + year;
    assert token != [] by { assert |token| >= 2; }
    WordsFirst(token, rest);
    assert month + "/" + day + "/" + year + rest == token + rest;
    SplitDate(month, day, year);
  }

  /** A date token with two slashes splits into its three pieces. */
  lemma SplitDate(month: string, day: string, year: string)
    requires '/' !in month && '/' !in day && '/' !in year
    ensures Split(month + "/" + day + "/" + year, "/") == [month, day, year]
  {
    SplitFirst(day, "/", year);
    SplitNone(year, "/");
    assert month + "/" + day + "/" + year == month + "/" + (day + "/" + year);
    SplitFirst(month, "/", day + "/" + year);
  }

  /** `format_date` fails exactly on a blank string or a first token with fewer than two slashes. */
  lemma FormatDateFails(testDate: string)
    ensures FormatDate(testDate).None? <==>
      Words(testDate) == [] || Count(Words(testDate)[0], '/') < 2
  {
    if Words(testDate) != [] {
      SplitCount(Words(testDate)[0], '/');
    }
  }

  /** The example of the log format: `"03/14/2021 10:00:00"` gives `"20210314"`. */
  lemma FormatDateExample()
    ensures FormatDate("03/14/2021 10:00:00") == Some("20210314")
  {
    assert "03/14/2021 10:00:00" == "03" + "/" + "14" + "/" + "2021" + " 10:00:00";
    assert NoSpace("03/14/2021");
    assert "03" + "/" + "14" + "/" + "2021" == "03/14/2021";
    FormatDateOf("03", "14", "2021", " 10:00:00");
    assert "2021" + "03" + "14" == "20210314";
  }

  /** One row of the `TestResults` table: the eleven columns `create_tests_list` fills. */
  datatype OutputRecord = OutputRecord(
    testLocation: string,
    hostName: string,
    hostVersion: string,
    guestOSType: string,
    testResult: string,
    logPath: string,
    testCaseName: string,
    testArea: string,
    testDate: string,
    guestOSDistro: string,
    kernelVersion: string)

  /** The dictionary handed to the database layer: exactly the eleven columns, each holding its field. */
  function Row(r: OutputRecord): (m: map<string, string>)
    ensures m.Keys == {"TestLocation", "HostName", "HostVersion", "GuestOSType", "TestResult", "LogPath",
      "TestCaseName", "TestArea", "TestDate", "GuestOSDistro", "KernelVersion"}
    ensures m["TestLocation"] == r.testLocation && m["HostName"] == r.hostName
    ensures m["HostVersion"] == r.hostVersion && m["GuestOSType"] == r.guestOSType
    ensures m["TestResult"] == r.testResult && m["LogPath"] == r.logPath
    ensures m["TestCaseName"] == r.testCaseName && m["TestArea"] == r.testArea
    ensures m["TestDate"] == r.testDate && m["GuestOSDistro"] == r.guestOSDistro
    ensures m["KernelVersion"] == r.kernelVersion
  {
    // Column names of equal length differ at these positions.
    assert "HostName"[0] != "TestArea"[0] && "HostName"[0] != "TestDate"[0] && "TestArea"[4] != "TestDate"[4];
    assert "HostVersion"[0] != "GuestOSType"[0] && "TestLocation"[4] != "TestCaseName"[4];
    assert "GuestOSDistro"[0] != "KernelVersion"[0];
    map[
      "TestLocation" := r.testLocation, "HostName" := r.hostName, "HostVersion" := r.hostVersion,
      "GuestOSType" := r.guestOSType, "TestResult" := r.testResult, "LogPath" := r.logPath,
      "TestCaseName" := r.testCaseName, "TestArea" := r.testArea, "TestDate" := r.testDate,
      "GuestOSDistro" := r.guestOSDistro, "KernelVersion" := r.kernelVersion]
  }

  /**
   * The `try` of `create_tests_list` succeeds for test `i` and VM `j`: the test has a
   * result for that VM and the tree has a log directory. Otherwise the pair is skipped.
   */
  predicate HasResult(tree: TestTree, i: nat, j: nat)
    requires i < |tree.tests| && j < |tree.vms|
  {
    tree.vms[j].name in tree.tests[i].results && tree.logDir.Some?
  }

  /** A (test index, VM index) pair that yields a record. */
  predicate Resulted(tree: TestTree, p: (nat, nat)) {
    p.0 < |tree.tests| && p.1 < |tree.vms| && HasResult(tree, p.0, p.1)
  }

  /** Pair `p` comes before position (`i`, `j`) of the nested loops: tests outside, VMs inside. */
  predicate Before(p: (nat, nat), i: nat, j: nat) {
    p.0 < i || (p.0 == i && p.1 < j)
  }

  /** A loop position: test `i` about to look at VM `j`, or the end (`i` past the last test, `j` zero). */
  predicate Position(tree: TestTree, i: nat, j: nat) {
    i <= |tree.tests| && j <= |tree.vms| && (i == |tree.tests| ==> j == 0)
  }

  /** The pairs that yield a record before position (`i`, `j`), in loop order. */
  function Pairs(tree: TestTree, i: nat, j: nat): (ps: seq<(nat, nat)>)
    requires Position(tree, i, j)
    ensures forall p :: p in ps ==> Resulted(tree, p) && Before(p, i, j)
    decreases i, j
  {
    if j == 0 then (if i == 0 then [] else Pairs(tree, i - 1, |tree.vms|))
    else if HasResult(tree, i, j - 1) then Pairs(tree, i, j - 1) + [(i, j - 1)]
    else Pairs(tree, i, j - 1)
  }

  /** Every pair that yields a record. */
  function ResultedPairs(tree: TestTree): seq<(nat, nat)> {
    Pairs(tree, |tree.tests|, 0)
  }

  /**
   * The record built for one pair, or the exception raised while building it:
   * `format_date` fails with `IndexError`, a VM without `OSName` or
   * `OSBuildNumber` with `KeyError`, in that order.
   */
  function MakeRecord(tree: TestTree, p: (nat, nat)): Result<OutputRecord>
    requires Resulted(tree, p)
  {
    var test := tree.tests[p.0];
    var vm := tree.vms[p.1];
    var d := vm.details;
    match FormatDate(tree.timestamp)
    case None => Err(IndexError)
    case Some(date) =>
      if d.osName.None? then Err(KeyError("OSName"))
      else if d.osBuildNumber.None? then Err(KeyError("OSBuildNumber"))
      else Ok(OutputRecord(
        d.testLocation, d.hvServer, d.hostOSVersion, d.os, test.results[vm.name], tree.logDir.value,
        test.name, tree.testSuite, date, d.osName.value, d.osBuildNumber.value))
  }

  /** The list the loops have built when they reach position (`i`, `j`), or the exception raised on the way. */
  function Assembled(tree: TestTree, i: nat, j: nat): Result<seq<OutputRecord>>
    requires Position(tree, i, j)
    decreases i, j
  {
    if j == 0 then (if i == 0 then Ok([]) else Assembled(tree, i - 1, |tree.vms|))
    else
      match Assembled(tree, i, j - 1)
      case Err(e) => Err(e)
      case Ok(rs) =>
        if !HasResult(tree, i, j - 1) then Ok(rs)
        else
          match MakeRecord(tree, (i, j - 1))
          case Err(e) => Err(e)
          case Ok(r) => Ok(rs + [r])
  }

  /** What `create_tests_list` returns, or the exception it raises. */
  function Assemble(tree: TestTree): Result<seq<OutputRecord>> {
    Assembled(tree, |tree.tests|, 0)
  }

  /** Once the loops have raised, nothing later changes the outcome. */
  lemma {:induction false} AssembledErrSticks(tree: TestTree, i: nat, j: nat, i2: nat, j2: nat)
    requires Position(tree, i, j) && Position(tree, i2, j2)
    requires i < i2 || (i == i2 && j <= j2)
    requires Assembled(tree, i, j).Err?
    ensures Assembled(tree, i2, j2) == Assembled(tree, i, j)
    decreases i2, j2
  {
    if i == i2 && j == j2 {
    } else if j2 == 0 {
      AssembledErrSticks(tree, i, j, i2 - 1, |tree.vms|);
    } else {
      AssembledErrSticks(tree, i, j, i2, j2 - 1);
    }
  }

  /** Exactly the in-range pairs before (`i`, `j`) that have a result are listed. */
  lemma {:induction false} PairsMember(tree: TestTree, i: nat, j: nat, p: (nat, nat))
    requires Position(tree, i, j)
    ensures p in Pairs(tree, i, j) <==> Resulted(tree, p) && Before(p, i, j)
    decreases i, j
  {
    if j == 0 {
      if i > 0 {
        PairsMember(tree, i - 1, |tree.vms|, p);
      }
    } else {
      PairsMember(tree, i, j - 1, p);
    }
  }

  /** Lexicographic order on pairs: the order in which the nested loops visit them. */
  predicate LoopOrder(p: (nat, nat), q: (nat, nat)) {
    Before(p, q.0, q.1)
  }

  /** The pairs come in loop order, each at most once: grouped by test, VMs in order inside a test. */
  lemma {:induction false} PairsOrdered(tree: TestTree, i: nat, j: nat)
    requires Position(tree, i, j)
    ensures forall k, l :: 0 <= k < l < |Pairs(tree, i, j)| ==>
      LoopOrder(Pairs(tree, i, j)[k], Pairs(tree, i, j)[l])
    decreases i, j
  {
    if j == 0 {
      if i > 0 {
        PairsOrdered(tree, i - 1, |tree.vms|);
      }
    } else {
      PairsOrdered(tree, i, j - 1);
      var ps := Pairs(tree, i, j - 1);
      if HasResult(tree, i, j - 1) {
        var qs := ps + [(i, j - 1)];
        forall k, l | 0 <= k < l < |qs|
          ensures LoopOrder(qs[k], qs[l])
        {
          if l == |ps| {
            assert ps[k] in ps;
          }
        }
      }
    }
  }

  /**
   * Up to any position, the loops have not raised exactly when every pair met so
   * far gives a record, and then they have built one record per pair, in order.
   */
  lemma {:induction false} AssembledPairs(tree: TestTree, i: nat, j: nat)
    requires Position(tree, i, j)
    ensures Assembled(tree, i, j).Ok? <==>
      forall p :: p in Pairs(tree, i, j) ==> MakeRecord(tree, p).Ok?
    ensures Assembled(tree, i, j).Ok? ==>
      |Assembled(tree, i, j).value| == |Pairs(tree, i, j)| &&
      forall k :: 0 <= k < |Pairs(tree, i, j)| ==>
        MakeRecord(tree, Pairs(tree, i, j)[k]) == Ok(Assembled(tree, i, j).value[k])
    decreases i, j
  {
    if j == 0 {
      if i > 0 {
        AssembledPairs(tree, i - 1, |tree.vms|);
      }
    } else {
      AssembledPairs(tree, i, j - 1);
      var ps := Pairs(tree, i, j - 1);
      if HasResult(tree, i, j - 1) {
        assert Pairs(tree, i, j) == ps + [(i, j - 1)];
      }
    }
  }

  /** Pair `k` of `ps` raises `e` and every pair before it builds its record. */
  predicate FirstError(tree: TestTree, ps: seq<(nat, nat)>, k: nat, e: PyError)
    requires forall p :: p in ps ==> Resulted(tree, p)
    requires k < |ps|
  {
    MakeRecord(tree, ps[k]) == Err(e) && forall l :: 0 <= l < k ==> MakeRecord(tree, ps[l]).Ok?
  }

  /**
   * When the loops raise, the exception is the one of the first pair whose
   * record cannot be built; every earlier pair builds.
   */
  lemma {:induction false} AssembledFirstError(tree: TestTree, i: nat, j: nat)
    requires Position(tree, i, j)
    requires Assembled(tree, i, j).Err?
    ensures exists k :: 0 <= k < |Pairs(tree, i, j)| && FirstError(tree, Pairs(tree, i, j), k, Assembled(tree, i, j).error)
    decreases i, j
  {
    if j == 0 {
      AssembledFirstError(tree, i - 1, |tree.vms|);
      var ps := Pairs(tree, i - 1, |tree.vms|);
      var k :| 0 <= k < |ps| && FirstError(tree, ps, k, Assembled(tree, i - 1, |tree.vms|).error);
      assert FirstError(tree, Pairs(tree, i, j), k, Assembled(tree, i, j).error);
    } else {
      var ps := Pairs(tree, i, j - 1);
      if Assembled(tree, i, j - 1).Err? {
        AssembledFirstError(tree, i, j - 1);
        var k :| 0 <= k < |ps| && FirstError(tree, ps, k, Assembled(tree, i, j - 1).error);
        if HasResult(tree, i, j - 1) {
          assert ps == Pairs(tree, i, j)[..|ps|];
        } else {
          assert ps == Pairs(tree, i, j);
        }
        assert FirstError(tree, Pairs(tree, i, j), k, Assembled(tree, i, j).error);
      } else {
        AssembledPairs(tree, i, j - 1);
        var qs := Pairs(tree, i, j);
        assert qs == ps + [(i, j - 1)];
        forall l | 0 <= l < |ps|
          ensures MakeRecord(tree, qs[l]).Ok?
        {
          assert qs[l] == ps[l] && ps[l] in ps;
        }
        assert FirstError(tree, qs, |ps|, Assembled(tree, i, j).error);
      }
    }
  }

  /** A record can be built for a pair exactly when the timestamp parses and the VM carries its OS fields. */
  lemma MakeRecordOk(tree: TestTree, p: (nat, nat))
    requires Resulted(tree, p)
    ensures MakeRecord(tree, p).Ok? <==>
      FormatDate(tree.timestamp).Some? && Enriched(tree.vms[p.1])
    ensures MakeRecord(tree, p).Err? ==>
      MakeRecord(tree, p).error in {IndexError, KeyError("OSName"), KeyError("OSBuildNumber")}
  {
  }

  /**
   * `create_tests_list` returns normally exactly when no pair has a result, or
   * the timestamp parses and every VM with a result carries its OS fields.
   */
  lemma AssembleOk(tree: TestTree)
    ensures Assemble(tree).Ok? <==> (ResultedPairs(tree) == [] ||
      (FormatDate(tree.timestamp).Some? &&
       forall p :: p in ResultedPairs(tree) ==> Enriched(tree.vms[p.1])))
  {
    AssembledPairs(tree, |tree.tests|, 0);
    var ps := ResultedPairs(tree);
    if ps != [] && Assemble(tree).Ok? {
      assert ps[0] in ps;
      MakeRecordOk(tree, ps[0]);
    }
    forall p | p in ps
      ensures MakeRecord(tree, p).Ok? <==> FormatDate(tree.timestamp).Some? && Enriched(tree.vms[p.1])
    {
      MakeRecordOk(tree, p);
    }
  }

  /**
   * On success there is one record per pair with a result, in loop order, and
   * each record carries the test's name and result, the suite, the formatted
   * date and the VM's OS fields.
   */
  lemma AssembleRecords(tree: TestTree)
    requires Assemble(tree).Ok?
    ensures |Assemble(tree).value| == |ResultedPairs(tree)|
    ensures forall k :: 0 <= k < |ResultedPairs(tree)| ==>
      var p := ResultedPairs(tree)[k];
      var r := Assemble(tree).value[k];
      Resulted(tree, p) &&
      var vm := tree.vms[p.1];
      r.testCaseName == tree.tests[p.0].name &&
      r.testResult == tree.tests[p.0].results[vm.name] &&
      r.testArea == tree.testSuite && Some(r.testDate) == FormatDate(tree.timestamp) &&
      Some(r.logPath) == tree.logDir && r.hostName == vm.details.hvServer &&
      r.testLocation == vm.details.testLocation && r.hostVersion == vm.details.hostOSVersion &&
      r.guestOSType == vm.details.os &&
      Some(r.guestOSDistro) == vm.details.osName &&
      Some(r.kernelVersion) == vm.details.osBuildNumber
  {
    AssembledPairs(tree, |tree.tests|, 0);
    var ps := ResultedPairs(tree);
    forall k | 0 <= k < |ps|
      ensures Resulted(tree, ps[k])
    {
      assert ps[k] in ps;
    }
  }

  /** Without a log directory every pair is skipped: the list is empty. */
  lemma AssembleNoLogDir(tree: TestTree)
    requires tree.logDir.None?
    ensures Assemble(tree) == Ok([])
  {
    AssembledNoLogDir(tree, |tree.tests|, 0);
  }

  lemma {:induction false} AssembledNoLogDir(tree: TestTree, i: nat, j: nat)
    requires tree.logDir.None? && Position(tree, i, j)
    ensures Assembled(tree, i, j) == Ok([])
    decreases i, j
  {
    if j == 0 {
      if i > 0 {
        AssembledNoLogDir(tree, i - 1, |tree.vms|);
      }
    } else {
      AssembledNoLogDir(tree, i, j - 1);
    }
  }

  /**
   * Two tests on two VMs, where the second test has no result for the second VM:
   * three records come out and the missing pair is skipped without raising.
   */
  lemma AssembleExample(tree: TestTree)
    requires tree.timestamp == "03/14/2021 10:00:00" && tree.logDir == Some("logs")
    requires |tree.vms| == 2 && Enriched(tree.vms[0]) && Enriched(tree.vms[1])
    requires tree.vms[0].name == "vmA" && tree.vms[1].name == "vmB"
    requires tree.tests == [
      TestEntry("TC1", map["vmA" := "PASS", "vmB" := "FAIL"]),
      TestEntry("TC2", map["vmA" := "PASS"])]
    ensures ResultedPairs(tree) == [(0, 0), (0, 1), (1, 0)]
    ensures Assemble(tree).Ok? && |Assemble(tree).value| == 3
    ensures Assemble(tree).value[1].testResult == "FAIL"
    ensures Assemble(tree).value[2].testCaseName == "TC2"
  {
    assert Pairs(tree, 1, 0) == [(0, 0), (0, 1)] by {
      assert Pairs(tree, 0, 1) == [(0, 0)];
    }
    assert !HasResult(tree, 1, 1);
    assert Pairs(tree, 2, 0) == [(0, 0), (0, 1), (1, 0)] by {
      assert Pairs(tree, 1, 1) == [(0, 0), (0, 1), (1, 0)];
    }
    FormatDateExample();
    AssembleOk(tree);
    AssembleRecords(tree);
  }

  /**
   * `create_tests_list`: for each test, for each VM, copy the VM's fields, skip the
   * pair when the result or the log directory is missing, and otherwise append
   * the completed record. The tests object is only read.
   */
  method CreateTestsList(obj: TestsObject) returns (r: Result<seq<OutputRecord>>)
    ensures r == Assemble(obj.Tree())
  {
    ghost var tree := obj.Tree();
    var tests, vms := obj.tests, obj.vms;
    var records: seq<OutputRecord> := [];
    var i := 0;
    while i < |tests|
      invariant i <= |tests|
      invariant Assembled(tree, i, 0) == Ok(records)
    {
      var testName, results := tests[i].name, tests[i].results;
      var j := 0;
      while j < |vms|
        invariant j <= |vms|
        invariant Assembled(tree, i, j) == Ok(records)
      {
        var name, details := vms[j].name, vms[j].details;
        if name in results && obj.logDir.Some? {
          var date := FormatDate(obj.timestamp);
          var failure := if date.None? then Some(IndexError)
            else if details.osName.None? then Some(KeyError("OSName"))
            else if details.osBuildNumber.None? then Some(KeyError("OSBuildNumber"))
            else None;
          if failure.Some? {
            AssembledErrSticks(tree, i, j + 1, |tests|, 0);
            return Err(failure.value);
          }
          var record := OutputRecord(
            details.testLocation, details.hvServer, details.hostOSVersion, details.os,
            results[name], obj.logDir.value, testName, obj.testSuite, date.value,
            details.osName.value, details.osBuildNumber.value);
          records := records + [record];
        }
        j := j + 1;
      }
      i := i + 1;
    }
    r := Ok(records);
  }
}
