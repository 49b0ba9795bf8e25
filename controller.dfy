/**
 * The hypervisor boundary: `manage_vm(action, vm, host)` and
 * `get_vm_details(vm, host)`, which run PowerShell against a host and return its
 * text, or raise `RuntimeError`. What the host answers is an oracle fixed when
 * the controller is created; the controller records every command it sends, and
 * every wait, in a ghost trace.
 */
module Controller {

  /** The commands the core sends: `manage_vm('check' | 'start' | 'stop', ...)` and `get_vm_details`. */
  datatype Request = Check | Start | Stop | Details

  /** What a command gives back: its output text, or a raised `RuntimeError`. */
  datatype Reply = Output(text: string) | Failed

  /** One observable step: a command sent for a VM on its host, or a `time.sleep(seconds)`. */
  datatype Event = Sent(request: Request, vm: string, host: string) | Wait(seconds: nat)

  /** The answers of the hypervisor, as a function of the command, the VM and the host. */
  type Oracle = (Request, string, string) -> Reply

  class VmController {
    const oracle: Oracle
    ghost var trace: seq<Event>

    constructor (oracle: Oracle)
      ensures this.oracle == oracle && trace == []
    {
      this.oracle := oracle;
      trace := [];
    }

    /** Sends one command; the reply is the oracle's, and the command is appended to the trace. */
    method Send(request: Request, vm: string, host: string) returns (reply: Reply)
      modifies this
      ensures reply == oracle(request, vm, host)
      ensures trace == old(trace) + [Sent(request, vm, host)]
    {
      reply := oracle(request, vm, host);
      trace := trace + [Sent(request, vm, host)];
    }

    /** `time.sleep(seconds)`: only the fact of the wait is recorded, not its timing. */
    method Sleep(seconds: nat)
      modifies this
      ensures trace == old(trace) + [Wait(seconds)]
    {
      trace := trace + [Wait(seconds)];
    }
  }
}
