/**
 * The decision logic inside the API client's methods, over data those
 * methods have already fetched: public-port allocation and defaulting, the
 * forward and cloudspace request payloads, the node address choice, the ssh
 * command line and the image choice.
 */
module Client {
  import opened Base
  import opened Text
  import opened Records

  /** The first public port `get_publicport` tries. */
  const FirstPublicPort: int := 3500

  /** The name fragment `create_machine` looks for in the image list. */
  const UbuntuImage: string := "Ubuntu 16.04"

  /** The interface `connect_node` prefers. */
  const BackplaneIface: string := "backplane1"

  datatype ClientError =
    | ImageNotFound   // LookupError('Could not find Ubuntu image')
    | IndexFault      // an `[0]` on an empty list raised IndexError

  /** The largest of `d` and the elements of `s`. */
  function MaxOf(s: seq<int>, d: int): (m: int)
    ensures m >= d
    ensures forall x :: x in s ==> x <= m
  {
    if s == [] then d
    else
      var rest := MaxOf(s[1..], d);
      assert forall x :: x in s ==> x == s[0] || x in s[1..];
      if s[0] > rest then s[0] else rest
  }

  /** The loop `while pubport in usedports: pubport += 1`, started at `from`. */
  function FreePortFrom(used: seq<int>, from: int): (r: int)
    ensures r >= from
    ensures r !in used
    ensures forall p :: from <= p < r ==> p in used
    decreases MaxOf(used, 0) + 1 - from
  {
    if from in used then FreePortFrom(used, from + 1) else from
  }

  function PublicPorts(forwards: seq<Forward>): (ports: seq<int>)
    ensures |ports| == |forwards|
    ensures forall i :: 0 <= i < |forwards| ==> ports[i] == forwards[i].publicPort
  {
    seq(|forwards|, i requires 0 <= i < |forwards| => forwards[i].publicPort)
  }

  /** Some forward of the list uses public port `p`. */
  predicate PortUsed(forwards: seq<Forward>, p: int) {
    exists f :: f in forwards && f.publicPort == p
  }

  /**
   * `get_publicport`: the least port from 3500 upward that no existing forward
   * of the cloudspace uses.
   */
  function GetPublicPort(forwards: seq<Forward>): (r: int)
    ensures r >= FirstPublicPort
    ensures forall f :: f in forwards ==> f.publicPort != r
    ensures forall p :: FirstPublicPort <= p < r ==> PortUsed(forwards, p)
  {
    var ports := PublicPorts(forwards);
    var r := FreePortFrom(ports, FirstPublicPort);
    assert forall f :: f in forwards ==> f.publicPort in ports by {
      forall f | f in forwards ensures f.publicPort in ports {
        var i :| 0 <= i < |forwards| && forwards[i] == f;
        assert ports[i] == f.publicPort;
      }
    }
    assert forall p :: FirstPublicPort <= p < r ==> PortUsed(forwards, p) by {
      forall p | FirstPublicPort <= p < r ensures PortUsed(forwards, p) {
        assert p in ports;
        var i :| 0 <= i < |ports| && ports[i] == p;
        assert forwards[i] in forwards;
      }
    }
    r
  }

  /** The three properties pin the port down: any port having them is the one `get_publicport` returns. */
  lemma LeastFreePortUnique(forwards: seq<Forward>, p: int)
    requires p >= FirstPublicPort && !PortUsed(forwards, p)
    requires forall q :: FirstPublicPort <= q < p ==> PortUsed(forwards, q)
    ensures p == GetPublicPort(forwards)
  {
    var r := GetPublicPort(forwards);
    assert !PortUsed(forwards, r) by {
      forall f | f in forwards ensures f.publicPort != r { }
    }
    assert r < p ==> PortUsed(forwards, r);
    assert p < r ==> PortUsed(forwards, p);
  }

  /** The JSON body of `portforwarding/create`. */
  datatype ForwardRequest = ForwardRequest(
    cloudspaceId: int,
    publicIp: string,
    publicPort: int,
    machineId: int,
    localPort: int,
    protocol: string)

  /** Python's truthiness of the optional public port: `None` and `0` are false. */
  predicate PortGiven(publicport: Option<int>) {
    publicport.Some? && publicport.value != 0
  }

  /**
   * The request `create_forward` posts. `existing` is the cloudspace's forward
   * list `get_publicport` would fetch; `vm` is the machine `select_vm` resolved.
   */
  function CreateForwardRequest(cloudspace: CloudSpace, vm: Vm, publicport: Option<int>, privateport: int, existing: seq<Forward>): (r: ForwardRequest)
    ensures PortGiven(publicport) ==> r.publicPort == publicport.value
    ensures !PortGiven(publicport) ==> r.publicPort >= FirstPublicPort && forall f :: f in existing ==> f.publicPort != r.publicPort
    ensures !PortGiven(publicport) ==> forall p :: FirstPublicPort <= p < r.publicPort ==> PortUsed(existing, p)
    ensures r.localPort == privateport && r.protocol == "tcp"
    ensures r.cloudspaceId == cloudspace.id && r.publicIp == cloudspace.externalNetworkIp && r.machineId == vm.id
  {
    var port := if PortGiven(publicport) then publicport.value else GetPublicPort(existing);
    ForwardRequest(cloudspace.id, cloudspace.externalNetworkIp, port, vm.id, privateport, "tcp")
  }

  /** The ssh forward `create_machine` adds for a new machine: a free public port to local port 22. */
  function MachineSshForward(cloudspace: CloudSpace, vm: Vm, existing: seq<Forward>): (r: ForwardRequest)
    ensures r.localPort == 22 && r.protocol == "tcp"
    ensures r.publicPort >= FirstPublicPort && forall f :: f in existing ==> f.publicPort != r.publicPort
    ensures r.cloudspaceId == cloudspace.id && r.publicIp == cloudspace.externalNetworkIp && r.machineId == vm.id
  {
    ForwardRequest(cloudspace.id, cloudspace.externalNetworkIp, GetPublicPort(existing), vm.id, 22, "tcp")
  }

  /** Forward creation with no public port asks for the same port as the ssh forward of a new machine. */
  lemma DefaultedForwardMatchesMachineForward(cloudspace: CloudSpace, vm: Vm, existing: seq<Forward>)
    ensures CreateForwardRequest(cloudspace, vm, None, 22, existing) == MachineSshForward(cloudspace, vm, existing)
    ensures CreateForwardRequest(cloudspace, vm, Some(0), 22, existing) == MachineSshForward(cloudspace, vm, existing)
  {
  }

  /** An interface named `iface` that carries at least one address. */
  predicate Offers(nic: Nic, iface: string) {
    nic.name == iface && nic.ips != []
  }

  /** `nics[i]` is the first interface that offers an address on `iface`. */
  predicate FirstOffering(nics: seq<Nic>, iface: string, i: int) {
    && 0 <= i < |nics|
    && Offers(nics[i], iface)
    && forall j :: 0 <= j < i ==> !Offers(nics[j], iface)
  }

  lemma FirstOfferingShift(nics: seq<Nic>, iface: string, i: int)
    requires nics != [] && !Offers(nics[0], iface) && FirstOffering(nics[1..], iface, i)
    ensures FirstOffering(nics, iface, i + 1)
  {
    assert nics[i + 1] == nics[1..][i];
    forall j | 0 <= j < i + 1 ensures !Offers(nics[j], iface) {
      if j > 0 { assert nics[j] == nics[1..][j - 1]; }
    }
  }

  /**
   * `get_nic_ip(iface)`: the first address of the first interface named
   * `iface` whose address list is non-empty.
   */
  function GetNicIp(nics: seq<Nic>, iface: string): (r: Option<string>)
    ensures r.Some? <==> exists i :: 0 <= i < |nics| && Offers(nics[i], iface)
    ensures r.Some? ==> exists i :: FirstOffering(nics, iface, i) && nics[i].ips[0] == r.value
  {
    if nics == [] then None
    else if Offers(nics[0], iface) then
      assert FirstOffering(nics, iface, 0);
      Some(nics[0].ips[0])
    else
      var rest := GetNicIp(nics[1..], iface);
      assert forall i :: 1 <= i < |nics| ==> nics[i] == nics[1..][i - 1];
      if rest.Some? then
        var i :| FirstOffering(nics[1..], iface, i) && nics[1..][i].ips[0] == rest.value;
        FirstOfferingShift(nics, iface, i);
        rest
      else
        rest
  }

  /**
   * The address `connect_node` provisions: the backplane address when it is
   * present and non-empty, else `ipaddr[0]`, which raises on an empty list.
   */
  function NodeAddress(node: Node): (r: Result<string, ClientError>)
    ensures var nic := GetNicIp(node.netaddr, BackplaneIface);
      nic.Some? && nic.value != "" ==> r == Ok(nic.value)
    ensures var nic := GetNicIp(node.netaddr, BackplaneIface);
      !(nic.Some? && nic.value != "") && node.ipaddr != [] ==> r == Ok(node.ipaddr[0])
    ensures r.Err? <==> node.ipaddr == [] && GetNicIp(node.netaddr, BackplaneIface) in {None, Some("")}
  {
    var nic := GetNicIp(node.netaddr, BackplaneIface);
    if nic.Some? && nic.value != "" then
      Ok(nic.value)
    else if node.ipaddr != [] then Ok(node.ipaddr[0])
    else Err(IndexFault)
  }

  /**
   * The command `connect_node` runs: `ssh -p <port> <user>@<ip>`, with `-A`
   * inserted after `ssh` when agent forwarding is asked for.
   */
  function SshCommand(port: nat, username: string, ip: string, forward: bool): (cmd: seq<string>)
    ensures |cmd| == if forward then 5 else 4
    ensures cmd[0] == "ssh" && cmd[|cmd| - 1] == username + "@" + ip
    ensures cmd[|cmd| - 3] == "-p" && IsDigits(cmd[|cmd| - 2]) && DigitsValue(cmd[|cmd| - 2]) == port
    ensures forward <==> "-A" in cmd
    ensures forward ==> cmd[1] == "-A" && cmd[..1] + cmd[2..] == SshCommand(port, username, ip, false)
  {
    DigitsRoundTrip(port);
    var login := username + "@" + ip;
    assert login[|username|] == '@';
    assert login != "-A";
    assert NatToDigits(port)[0] != '-';
    var base := ["ssh", "-p", NatToDigits(port), login];
    if forward then base[..1] + ["-A"] + base[1..] else base
  }

  /**
   * The image `create_machine` boots: the first image whose name contains
   * "Ubuntu 16.04".
   */
  function SelectImage(images: seq<Image>): (r: Result<int, ClientError>)
    ensures r.Err? <==> forall i :: 0 <= i < |images| ==> !Contains(images[i].name, UbuntuImage)
    ensures r.Err? ==> r.error == ImageNotFound
    ensures r.Ok? ==> exists i :: (0 <= i < |images| && images[i].id == r.value
      && Contains(images[i].name, UbuntuImage)
      && forall j :: 0 <= j < i ==> !Contains(images[j].name, UbuntuImage))
  {
    if images == [] then Err(ImageNotFound)
    else if Contains(images[0].name, UbuntuImage) then Ok(images[0].id)
    else
      var rest := SelectImage(images[1..]);
      assert forall i :: 1 <= i < |images| ==> images[i] == images[1..][i - 1];
      if rest.Ok? then
        var i :| 0 <= i < |images[1..]| && images[1..][i].id == rest.value
          && Contains(images[1..][i].name, UbuntuImage)
          && forall j :: 0 <= j < i ==> !Contains(images[1..][j].name, UbuntuImage);
        assert images[i + 1] == images[1..][i];
        rest
      else rest
  }

  /** The JSON body of `cloudspaces/create`; `cstype` is `None` when the key is absent. */
  datatype CloudSpaceRequest = CloudSpaceRequest(
    accountId: int,
    name: string,
    cstype: Option<string>,
    access: string,
    location: string)

  /**
   * The payload `create_cloudspace` builds: the name typed at the prompt when
   * none was given, a `type` key only for a truthy `cstype`, the caller's login
   * as `access` and the first location's code. `accountId` comes from the
   * account selection, `login` from `whoami`, `locations` from the location list.
   */
  function CloudSpacePayload(name: Option<string>, typedName: string, accountId: int, cstype: Option<string>, login: string, locations: seq<string>): (r: Result<CloudSpaceRequest, ClientError>)
    ensures r.Err? <==> locations == []
    ensures r.Ok? ==> (r.value.cstype.Some? <==> cstype.Some? && cstype.value != "")
    ensures r.Ok? && r.value.cstype.Some? ==> r.value.cstype == cstype
    ensures r.Ok? ==> r.value.name == (if name.Some? then name.value else typedName)
    ensures r.Ok? ==> r.value.location == locations[0] && r.value.access == login && r.value.accountId == accountId
  {
    var n := if name.None? then typedName else name.value;
    var t := if cstype.Some? && cstype.value != "" then cstype else None;
    if locations == [] then Err(IndexFault)
    else Ok(CloudSpaceRequest(accountId, n, t, login, locations[0]))
  }
}
