# lisa-persist record assembly, modelled in Dafny

lisa-persist reads the XML descriptor and log of a LISA test run, asks the
Hyper-V host about each VM, and turns the result into rows of the
`TestResults` table. This project models the part of `persist.py` and
`vm_utils.py` that has real logic:

- `format_date`, which turns a log timestamp `MM/DD/YYYY ...` into `YYYYMMDD`;
- `create_tests_list`, which flattens the tests x VMs cross product into
  eleven-column rows and skips pairs without a result;
- the check/start/wait loop of `create_tests_dict`, which starts every VM
  whose state is `Off`, sets one `is_booting` flag and then waits once;
- `get_vm_info`, which fetches each VM's KVP dump, stops the VM, folds the
  `\r\n`-separated lines into a map and writes `OSBuildNumber` and
  `OSName + " " + OSMajorVersion` into the VM record;
- the output scraping of `vm_utils.py`: the state test of
  `check_vm_status` and the first-match lookup of `get_kvp_value`.

Files, leaf first:

- `outcomes.dfy` (`Outcomes`): `Option`, `Result`, the Python exceptions the
  code lets escape (`IndexError`, `KeyError`, `RuntimeError`) and `Halt`,
  which is either `sys.exit(code)` or an exception that nothing catches.
- `text.dfy` (`Text`): the Python 2 string built-ins the code uses
  (`strip`, `split()`, `split(sep)`) and their properties.
- `vm_utils.dfy` (`VmUtils`): `check_vm_status`'s test and `get_kvp_value`.
- `controller.dfy` (`Controller`): the hypervisor boundary. `manage_vm` and
  `get_vm_details` become a class whose replies come from a fixed oracle.
  The class keeps a ghost trace of every command sent and every wait.
- `tests_object.dfy` (`TestsTree`): the tests object as datatypes, plus a
  class whose `vms` field is rewritten in place.
- `records.dfy` (`Records`): `format_date` and `create_tests_list`.
- `enrichment.dfy` (`Enrichment`): `create_tests_dict` and `get_vm_info` as
  methods. Each method is proved equal to a function that lists the commands
  sent, the new VM records and the halt.
- `enrichment_lemmas.dfy` (`EnrichmentLemmas`): what those functions promise.
  This covers start-only-when-`Off`, the single shared wait, stop-every-VM,
  last-key-wins, phase order, fail-fast, and the link to `create_tests_list`.

Python dictionaries become sequences of named entries (`tests`, `vms`).
That the names are distinct, as dictionary keys are, is assumed and not
checked: no member requires it. No order is claimed beyond the nesting of the two loops. The
`KeyError` that skips a pair in `create_tests_list` becomes an explicit
membership test. The `is_booting` flag is a returned boolean.

A dump whose lines end in `\n` only yields no line after
`split('\r\n')[:-1]`, so `vm_info['OSBuildNumber']` raises `KeyError`
(`EnrichmentLemmas.EnrichOneLfOnly`); `EnrichmentLemmas.EnrichOneOfDump`
covers the same dump with `\r\n` endings. The state token of a `check`
output is `split('-----')[1]`, the text between the first rule and any
second one, stripped. A failed `check` or `start`
exits with code 0, the same code as success. The model keeps that code.

## Model

| member | source | states |
|---|---|---|
| `VmUtils.CheckVmStatusFails` | vm_utils.py:12 | the state test raises `IndexError` exactly when the stripped output has fewer than two line breaks |
| `VmUtils.CheckVmStatusReport` | vm_utils.py:12-15 | on any output that `strip()` turns into a report whose third line is `state` (surrounding blank lines allowed), the VM counts as running exactly when `state.strip()` is not `Off`; later lines do not matter |
| `VmUtils.ValueOfSpec` | vm_utils.py:41 | `line.split(':')[1]` exists exactly when the line has a colon, holds no colon itself, and a line without a colon raises `IndexError` |
| `VmUtils.FirstMatchSpec` | vm_utils.py:39-41 | the lookup gives `None` exactly when no stripped line starts with the key; otherwise it gives the value of a matching line that no earlier line matches |
| `VmUtils.FirstMatchIgnoresLater` | vm_utils.py:39-41 | lines after the first match never change the result |
| `VmUtils.GetKvpValueOfLine` | vm_utils.py:36-41 | on `key:value` followed by a line break or the end, the value comes back untrimmed, keeping its leading space and any trailing `\r` |
| `Records.FormatDateOf` | persist.py:71-80 | `MM/DD/YYYY rest` becomes `YYYY + MM + DD`, the pieces copied unpadded |
| `Records.FormatDateFails` | persist.py:76-80 | `format_date` fails exactly on a blank string or a first token with fewer than two `/` |
| `Records.FormatDateExample` | persist.py:71-80 | `"03/14/2021 10:00:00"` becomes `"20210314"` |
| `Records.Row` | persist.py:46-63 | the row handed to the database has exactly the eleven column names as keys, each mapped to its record field |
| `Records.MakeRecordOk` | persist.py:59-63 | a pair with a result builds its record exactly when the timestamp parses and the VM carries `OSName` and `OSBuildNumber`; otherwise it raises `IndexError` or `KeyError` |
| `Records.PairsMember` | persist.py:37-57 | the emitted pairs are exactly the (test, VM) pairs whose test has a result for the VM, given a log directory |
| `Records.PairsOrdered` | persist.py:37-38 | the pairs come in nested-loop order: grouped by test, VMs in order, each once |
| `Records.AssembleOk` | persist.py:36-68 | `create_tests_list` returns normally exactly when no pair has a result, or the timestamp parses and every VM with a result is enriched |
| `Records.AssembleRecords` | persist.py:46-66 | on success, one record per resulted pair in loop order, each of the eleven fields taken from its fixed source (`TestLocation`, `hvServer`, `hostOSVersion`, `os`, the result, `logDir`, the test name, `testSuite`, the formatted timestamp, `OSName`, `OSBuildNumber`) |
| `Records.AssembledFirstError` | persist.py:59-63 | when it raises, the exception is the one of the first pair whose record cannot be built |
| `Records.AssembleNoLogDir` | persist.py:51-57 | without `logDir` every pair is skipped and the list is empty |
| `Records.AssembleExample` | persist.py:37-66 | two tests on two VMs, the second test lacking a result on the second VM, give exactly three records, none for the missing pair |
| `Records.CreateTestsList` | persist.py:28-68 | the nested loops return exactly `Assemble` of the tests object, which they only read |
| `Controller.VmController.Send` | persist.py:93-150 | each of the four hypervisor calls (details query at line 93, `stop` at 106, `check` at 142, `start` at 150): the reply is the hypervisor's answer and exactly that command is appended to the trace |
| `Controller.VmController.Sleep` | persist.py:156-160 | the sleep appends one `Wait` event to the trace and nothing else |
| `Enrichment.CheckVm` | persist.py:140-154 | one turn of the check loop sends what `CheckOne` lists and returns its flag and halt |
| `Enrichment.CheckVms` | persist.py:138-155 | the check loop's trace, halt and `is_booting` are those of `CheckPhase` |
| `Enrichment.ParseKvp` | persist.py:109-113 | the loop builds `vm_info` as `MergeKvp` of the lines |
| `Enrichment.EnrichVm` | persist.py:92-118 | one turn of `get_vm_info` sends what `EnrichOne` lists and rewrites only that VM's record |
| `Enrichment.GetVmInfo` | persist.py:84-120 | the loop's trace, the new VM records and the halt are those of the `Sweep` of `EnrichOne` |
| `Enrichment.CreateTestsDict` | persist.py:136-164 | check and start, at most one wait, then `get_vm_info`; trace, records and halt equal `CreateTestsDictSpec`, and only `vms` changes |
| `EnrichmentLemmas.StateTokenOf` | persist.py:147 | the state token is the text after the `-----` rule, stripped |
| `EnrichmentLemmas.StateTokenNoRule` | persist.py:147 | output in which `-----` occurs nowhere (dashes elsewhere allowed) raises `IndexError` |
| `EnrichmentLemmas.CheckOneSpec` | persist.py:141-154 | a failed check or start exits with 0, `start` is sent exactly when the state is `Off`, and only a successful start sets the flag; the turn completes exactly when the check answers with a state token and, for `Off`, the start answers too |
| `EnrichmentLemmas.CheckPhaseCommands` | persist.py:139-154 | the check loop sends only `check` and `start` |
| `EnrichmentLemmas.CheckPhaseStarts` | persist.py:138-154 | when the check loop completes it has checked every VM, started exactly the `Off` ones, and `is_booting` holds iff one was `Off` |
| `EnrichmentLemmas.CheckPhaseCompletes` | persist.py:138-154 | the check loop completes exactly when every VM's turn completes |
| `EnrichmentLemmas.BootPhaseWait` | persist.py:156-160 | exactly one 60-second wait, as the last step of the boot phase, iff the check loop completed and some VM was `Off`; otherwise none |
| `EnrichmentLemmas.CheckFailureHalts` | persist.py:141-145 | a `check` that raises for any VM halts the check loop |
| `EnrichmentLemmas.MergeKvpLastWins` | persist.py:109-113 | a key is in `vm_info` iff some line parses to it, and its value is that of the last such line |
| `EnrichmentLemmas.KvpLinesOf` | persist.py:109 | on `\r\n`-terminated lines, `split('\r\n')[:-1]` gives back exactly those lines |
| `EnrichmentLemmas.KvpLinesWithoutCr` | persist.py:109 | text without `\r` yields no line at all |
| `EnrichmentLemmas.EnrichOneSpec` | persist.py:91-116 | a failed details query exits with 0, an empty one with 2, otherwise `stop` follows the query before parsing, and a completed turn writes `OSBuildNumber` and `OSName + " " + OSMajorVersion` and keeps the rest of the record; the turn completes exactly when the query answers with text, `stop` answers and all three keys were parsed |
| `EnrichmentLemmas.EnrichOneOfDump` | persist.py:109-116 | a three-line `\r\n` dump of build, name and major version gives `OSBuildNumber = build` and `OSName = name + " " + major` |
| `EnrichmentLemmas.EnrichOneLfOnly` | persist.py:109-115 | a dump with `\n` endings only still stops the VM and then raises `KeyError('OSBuildNumber')` |
| `EnrichmentLemmas.EnrichOneIdempotent` | persist.py:115-116 | re-running a completed turn on its own output against the same host gives the same record |
| `EnrichmentLemmas.EnrichPhaseCommands` | persist.py:91-106 | `get_vm_info` sends only details queries and `stop` |
| `EnrichmentLemmas.EnrichPhaseComplete` | persist.py:91-120 | when `get_vm_info` completes, every VM was stopped, whether or not it was started, and carries the OS fields its own turn wrote |
| `EnrichmentLemmas.EnrichPhaseCompletes` | persist.py:91-120 | `get_vm_info` completes exactly when every VM's turn completes |
| `EnrichmentLemmas.CreateTestsDictOrder` | persist.py:138-162 | every check, start and the wait come before every details query and stop; a halt in the boot phase sends no details query and leaves the records as parsed |
| `EnrichmentLemmas.CreateTestsDictFailFast` | persist.py:141-145 | a failing `check` on any VM halts the run with the VM records unchanged |
| `EnrichmentLemmas.PairsByNames` | persist.py:37-57 | which pairs yield a record depends only on the VM names, not on the records enrichment rewrites |
| `EnrichmentLemmas.PipelineAssembles` | persist.py:156-164 | after a completed `create_tests_dict` and a parseable timestamp, `create_tests_list` returns normally with one record per resulted pair, the same pairs as before enrichment |

## Left out

- Process invocation (`subprocess.Popen`, `env.str('PSPath')`, the PowerShell command lines of vm_utils.py:7-33) is I/O; only the text it returns is modelled, as the oracle's reply.
- `manage_vm` and `get_vm_details` are not part of this model; they are an oracle that answers each (command, VM, host) with text or `RuntimeError`. The oracle has no memory: within one run each command is sent at most once per VM, so a history-dependent answer adds nothing.
- `time.sleep` (persist.py:160, vm_utils.py:23) is only a `Wait` event in the trace; its timing is not modelled. `start_vm` and `run_kvp_command` are pure process I/O and are left out.
- `ParseXML`, `ParseXML.parse_from_string` and `parse_log_file` are not part of this model: the parsed tests object is the input datatype, and `parse_from_string` is a function parameter from a line to a (key, value) pair.
- `main` (persist.py:167-207) is left out: argument parsing, `.env` loading, logging setup and the `sql_utils` connection, inserts and commit. As written it calls `sys.exit(0)` at persist.py:182, so nothing after it runs.
- VmUtils.KeyMatches: the regular-expression search `re.search('^' + key, line.strip())` is modelled as a literal prefix test, so keys are taken to hold no regex metacharacters.
- Python 2 dictionary iteration order is unspecified; the model takes the order of the sequences it is given and claims no order beyond "grouped by test, VMs in order within a test".
- Logging calls carry no behaviour and are left out.
- A `tests` entry without a `results` key behaves like one with an empty map, since the `KeyError` it raises is caught by the same handler.
- The top-level keys of the tests object (`testSuite`, `timestamp`, `tests`, `vms`) are always present; the `KeyError` that persist.py:37, 38, 60 and 61 would raise outside any `try` when one is missing is not modelled. Only `logDir`, read inside the `try`, may be absent.
- The stateless oracle relies on distinct VM names, which is assumed and not checked.
- The VM fields `TestLocation`, `hvServer`, `hostOSVersion` and `os` are always present in a VM record; a parser output lacking them is not modelled.
