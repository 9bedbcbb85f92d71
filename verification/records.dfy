/**
 * The records the remote API returns, reduced to the fields the shell and the
 * client's decision logic read.
 */
module Records {

  /** A cloudspace: `id`, `name` and `externalnetworkip`. */
  datatype CloudSpace = CloudSpace(id: int, name: string, externalNetworkIp: string)

  /** A virtual machine: `id`, `name` and `status` (`RUNNING`, `HALTED`, `PAUSED`, or other). */
  datatype Vm = Vm(id: int, name: string, status: string)

  /** A port-forward rule; `int(fwd['publicPort'])` is what allocation reads. */
  datatype Forward = Forward(publicPort: int, localPort: int, machineName: string)

  /** A network interface of a grid node: its `name` and its `ip` list. */
  datatype Nic = Nic(name: string, ips: seq<string>)

  /** A grid node: `name`, `netaddr` (its interfaces) and `ipaddr`. */
  datatype Node = Node(name: string, netaddr: seq<Nic>, ipaddr: seq<string>)

  /** An image of the image list: `id` and `name`. */
  datatype Image = Image(id: int, name: string)
}
