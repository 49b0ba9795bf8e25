/**
 * The output scraping of vm_utils.py: the power-state test of `check_vm_status`
 * and the first-match lookup of `get_kvp_value`. The PowerShell processes whose
 * output they read are not modelled; the output is the input.
 */
module VmUtils {
  import opened Outcomes
  import opened Text

  /**
   * The state test of `check_vm_status` on the output of `get-vm ... | Select State`:
   * `Ok(false)` when line 2 of the stripped output, stripped again, is `Off`,
   * `Ok(true)` for any other text, `IndexError` when there is no line 2.
   */
  function CheckVmStatus(output: string): (r: Result<bool>)
    ensures r.Err? ==> r.error == IndexError
  {
    var lines := Split(Strip(output), "\n");
    if |lines| < 3 then Err(IndexError) else Ok(Strip(lines[2]) != "Off")
  }

  /** The status test fails exactly when the stripped output has fewer than two line breaks. */
  lemma CheckVmStatusFails(output: string)
    ensures CheckVmStatus(output).Err? <==> Count(Strip(output), '\n') < 2
  {
    SplitCount(Strip(output), '\n');
  }

  /**
   * On any output that `strip()` turns into a report whose third line is
   * `state` (the blank lines around a real report go first), the VM counts as
   * running exactly when `state` is not `Off` once stripped; later lines do
   * not matter.
   */
  lemma CheckVmStatusReport(output: string, header: string, rule: string, state: string, tail: string)
    requires '\n' !in header && '\n' !in rule && '\n' !in state
    requires tail == [] || tail[0] == '\n'
    requires Strip(output) == header + "\n" + rule + "\n" + state + tail
    ensures CheckVmStatus(output) == Ok(Strip(state) != "Off")
  {
    var s := Strip(output);
    assert s == header + "\n" + (rule + "\n" + (state + tail));
    SplitFirst(header, "\n", rule + "\n" + (state + tail));
    SplitFirst(rule, "\n", state + tail);
    SplitHead(state, "\n", tail);
    assert Split(s, "\n") == [header, rule] + Split(state + tail, "\n");
  }

  /** The test of `get_kvp_value` on one line: the stripped line starts with the key. */
  predicate KeyMatches(line: string, key: string) {
    key <= Strip(line)
  }

  /** `line.split(':')[1]`: the text between the first and second colon, unstripped; `IndexError` without a colon. */
  function ValueOf(line: string): Result<Option<string>> {
    var parts := Split(line, ":");
    if |parts| < 2 then Err(IndexError) else Ok(Some(parts[1]))
  }

  /** The value exists exactly when the line has a colon, and it holds no colon itself. */
  lemma ValueOfSpec(line: string)
    ensures ValueOf(line).Ok? <==> ':' in line
    ensures ValueOf(line).Ok? ==> ValueOf(line).value.Some? && ':' !in ValueOf(line).value.value
    ensures ValueOf(line).Err? ==> ValueOf(line).error == IndexError
  {
    SplitCount(line, ':');
    SplitPiecesFree(line, ':');
    CountZero(line, ':');
  }

  /** The loop of `get_kvp_value`: the value of the first matching line, or `None`. */
  function FirstMatch(lines: seq<string>, key: string): Result<Option<string>> {
    if lines == [] then Ok(None)
    else if KeyMatches(lines[0], key) then ValueOf(lines[0])
    else FirstMatch(lines[1..], key)
  }

  /**
   * The lookup finds nothing exactly when no line matches; otherwise it returns
   * the value of a matching line that no earlier line matches.
   */
  lemma {:induction false} FirstMatchSpec(lines: seq<string>, key: string)
    ensures FirstMatch(lines, key) == Ok(None) <==> forall i :: 0 <= i < |lines| ==> !KeyMatches(lines[i], key)
    ensures FirstMatch(lines, key) != Ok(None) ==>
      exists i :: 0 <= i < |lines| && KeyMatches(lines[i], key) && FirstMatch(lines, key) == ValueOf(lines[i]) &&
        forall j :: 0 <= j < i ==> !KeyMatches(lines[j], key)
  {
    if lines == [] {
    } else if KeyMatches(lines[0], key) {
      ValueOfSpec(lines[0]);
    } else {
      FirstMatchSpec(lines[1..], key);
      assert forall i :: 1 <= i < |lines| ==> lines[i] == lines[1..][i - 1];
      if FirstMatch(lines, key) != Ok(None) {
        var i :| 0 <= i < |lines[1..]| && KeyMatches(lines[1..][i], key) && FirstMatch(lines, key) == ValueOf(lines[1..][i]) &&
          forall j :: 0 <= j < i ==> !KeyMatches(lines[1..][j], key);
        assert KeyMatches(lines[i + 1], key);
      }
    }
  }

  /** `get_kvp_value(kvp_output, key)`, the key read as a literal prefix. */
  function GetKvpValue(output: string, key: string): Result<Option<string>> {
    FirstMatch(Split(output, "\n"), key)
  }

  /** Lines after the first match are never looked at. */
  lemma {:induction false} FirstMatchIgnoresLater(lines: seq<string>, more: seq<string>, key: string, i: nat)
    requires i < |lines| && KeyMatches(lines[i], key)
    ensures FirstMatch(lines + more, key) == FirstMatch(lines, key)
    decreases |lines|
  {
    if !KeyMatches(lines[0], key) {
      assert (lines + more)[1..] == lines[1..] + more;
      FirstMatchIgnoresLater(lines[1..], more, key, i - 1);
    }
  }

  /**
   * On a line `key:value`, the lookup returns `value` exactly as written: the
   * leading space and any trailing `\r` are kept, and whatever follows the line
   * break is not looked at.
   */
  lemma GetKvpValueOfLine(key: string, value: string, tail: string)
    requires key != [] && !IsSpace(key[0])
    requires ':' !in key && ':' !in value && '\n' !in key && '\n' !in value
    requires tail == [] || tail[0] == '\n'
    ensures GetKvpValue(key + ":" + value + tail, key) == Ok(Some(value))
  {
    var line := key + ":" + value;
    assert line + tail == key + ":" + value + tail;
    assert '\n' !in line;
    SplitHead(line, "\n", tail);
    assert KeyMatches(line, key) by {
      var t := TrimRight(line);
      assert TrimLeft(line) == line;
      TrimRightSpec(line);
      assert line == t + line[|t|..];
      assert |t| > |key| by { assert line[|key|] == ':'; }
      assert t[..|key|] == line[..|key|] == key;
    }
    SplitFirst(key, ":", value);
    SplitNone(value, ":");
  }
}
