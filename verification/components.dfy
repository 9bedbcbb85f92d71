/**
 * The navigation tree's node kinds and what each one offers: its completion
 * candidates, its acceptance check for an entered line, and its breadcrumb
 * label and style.
 */
module Components {
  import opened Text
  import opened Records

  /**
   * One level of the navigation stack. Each variant keeps the records it was
   * built from (fetched when it was pushed, or refreshed by its own actions).
   */
  datatype Component =
    | Root                                                     // the environments
    | EnvSub(environment: string)                              // one environment
    | CloudSpaceList(cloudspaces: seq<CloudSpace>)             // the cloudspaces of the environment
    | CloudSpaceView(cloudspace: CloudSpace)                   // one cloudspace
    | VmList(cloudspace: CloudSpace, vms: seq<Vm>)             // the machines of a cloudspace
    | VmView(vm: Vm)                                           // one machine
    | ForwardList(cloudspace: CloudSpace, forwards: seq<Forward>) // the port forwards of a cloudspace
    | Console(nodes: seq<string>)                              // the grid nodes of the environment

  /**
   * How a candidate was produced: a bare string (`Plain`), or a completion
   * object styled as a menu entry, an action or a destructive action.
   */
  datatype Kind = Plain | Menu | Action | Destructive

  datatype Candidate = Candidate(text: string, kind: Kind)

  const Running: string := "RUNNING"
  const Halted: string := "HALTED"
  const Paused: string := "PAUSED"

  /** The status actions the machine's completer offers before the common ones. */
  function StatusActions(status: string): seq<string> {
    if status == Running then ["stop", "reboot", "pause"]
    else if status == Halted then ["start"]
    else if status == Paused then ["resume", "stop"]
    else []
  }

  function AsKind(names: seq<string>, kind: Kind): (r: seq<Candidate>)
    ensures |r| == |names|
    ensures forall i :: 0 <= i < |names| ==> r[i] == Candidate(names[i], kind)
  {
    seq(|names|, i requires 0 <= i < |names| => Candidate(names[i], kind))
  }

  function CloudSpaceNames(css: seq<CloudSpace>): (r: seq<string>)
    ensures |r| == |css|
    ensures forall i :: 0 <= i < |css| ==> r[i] == css[i].name
  {
    seq(|css|, i requires 0 <= i < |css| => css[i].name)
  }

  function VmNames(vms: seq<Vm>): (r: seq<string>)
    ensures |r| == |vms|
    ensures forall i :: 0 <= i < |vms| ==> r[i] == vms[i].name
  {
    seq(|vms|, i requires 0 <= i < |vms| => vms[i].name)
  }

  /** The names of the records a component lists: environments, cloudspaces, machines or nodes. */
  function RecordNames(c: Component, environments: seq<string>): seq<string> {
    match c
    case Root => environments
    case CloudSpaceList(css) => CloudSpaceNames(css)
    case VmList(_, vms) => VmNames(vms)
    case Console(nodes) => nodes
    case _ => []
  }

  /** Each variant's `completer`; the root's candidates are the configured environments. */
  function Candidates(c: Component, environments: seq<string>): seq<Candidate> {
    match c
    case Root => AsKind(environments, Plain)
    case EnvSub(_) => [Candidate("console", Menu), Candidate("cloudspace", Menu)]
    case CloudSpaceList(css) =>
      [Candidate("create", Action), Candidate("print", Action)] + AsKind(CloudSpaceNames(css), Plain)
    case CloudSpaceView(_) =>
      [Candidate("vm", Menu), Candidate("forwards", Menu), Candidate("delete", Destructive)]
    case VmList(_, vms) =>
      [Candidate("create", Action), Candidate("print", Action)] + AsKind(VmNames(vms), Plain)
    case VmView(vm) =>
      AsKind(StatusActions(vm.status), Action)
      + [Candidate("createforward", Action), Candidate("print", Action), Candidate("delete", Destructive)]
    case ForwardList(_, _) => [Candidate("print", Action), Candidate("delete", Destructive)]
    case Console(nodes) => AsKind(nodes, Plain)
  }

  /** The words the completers offer as completion objects. */
  const MenuWords: set<string> := {
    "console", "cloudspace", "vm", "forwards", "delete", "create", "print", "createforward",
    "stop", "reboot", "pause", "start", "resume"}

  function Texts(cands: seq<Candidate>): (r: seq<string>)
    ensures |r| == |cands|
    ensures forall i :: 0 <= i < |cands| ==> r[i] == cands[i].text
  {
    seq(|cands|, i requires 0 <= i < |cands| => cands[i].text)
  }

  /**
   * The machine's completions follow its status: RUNNING offers stop, reboot
   * and pause; HALTED offers start; PAUSED offers resume and stop; every status
   * ends with createforward, print and the destructive delete.
   */
  lemma VmActionTable(vm: Vm, environments: seq<string>)
    ensures var offered := Texts(Candidates(VmView(vm), environments));
      && ("start" in offered <==> vm.status == Halted)
      && ("stop" in offered <==> vm.status == Running || vm.status == Paused)
      && ("reboot" in offered <==> vm.status == Running)
      && ("pause" in offered <==> vm.status == Running)
      && ("resume" in offered <==> vm.status == Paused)
      && |offered| >= 3
      && offered[|offered| - 3..] == ["createforward", "print", "delete"]
      && (vm.status !in {Running, Halted, Paused} ==> offered == ["createforward", "print", "delete"])
    ensures var cands := Candidates(VmView(vm), environments);
      cands[|cands| - 1] == Candidate("delete", Destructive)
  {
    var offered := Texts(Candidates(VmView(vm), environments));
    VmOffered(vm, environments);
    if vm.status == Running {
      assert offered == ["stop", "reboot", "pause", "createforward", "print", "delete"];
    } else if vm.status == Halted {
      assert offered == ["start", "createforward", "print", "delete"];
    } else if vm.status == Paused {
      assert offered == ["resume", "stop", "createforward", "print", "delete"];
    } else {
      assert offered == ["createforward", "print", "delete"];
    }
  }

  lemma VmOffered(vm: Vm, environments: seq<string>)
    ensures Texts(Candidates(VmView(vm), environments)) == StatusActions(vm.status) + ["createforward", "print", "delete"]
  {
  }

  /** The bare-string candidates are exactly `names`. */
  ghost predicate PlainAreNames(r: seq<Candidate>, names: seq<string>) {
    forall t :: Candidate(t, Plain) in r <==> t in names
  }

  /** Every completion object is a menu word, and a completion object is destructive iff it is "delete". */
  predicate ObjectsAreMenuWords(r: seq<Candidate>) {
    forall k :: 0 <= k < |r| && r[k].kind != Plain ==>
      r[k].text in MenuWords && (r[k].kind == Destructive <==> r[k].text == "delete")
  }

  /**
   * Across all completers, the bare strings are exactly the names of the listed
   * records, and every completion object is a fixed menu word, destructive
   * exactly when it is "delete".
   */
  lemma CompleterKinds(c: Component, environments: seq<string>)
    ensures PlainAreNames(Candidates(c, environments), RecordNames(c, environments))
    ensures ObjectsAreMenuWords(Candidates(c, environments))
  {
    var names := RecordNames(c, environments);
    match c
    case Root => AsKindPlain(names, []);
    case EnvSub(_) => FixedMenu([Candidate("console", Menu), Candidate("cloudspace", Menu)]);
    case CloudSpaceList(_) => AsKindPlain(names, [Candidate("create", Action), Candidate("print", Action)]);
    case CloudSpaceView(_) =>
      FixedMenu([Candidate("vm", Menu), Candidate("forwards", Menu), Candidate("delete", Destructive)]);
    case VmList(_, _) => AsKindPlain(names, [Candidate("create", Action), Candidate("print", Action)]);
    case VmView(vm) =>
      FixedMenu(AsKind(StatusActions(vm.status), Action)
        + [Candidate("createforward", Action), Candidate("print", Action), Candidate("delete", Destructive)]);
    case ForwardList(_, _) => FixedMenu([Candidate("print", Action), Candidate("delete", Destructive)]);
    case Console(_) => AsKindPlain(names, []);
  }

  /** A completer offering only menu words offers no bare strings. */
  lemma FixedMenu(r: seq<Candidate>)
    requires forall k :: 0 <= k < |r| ==> r[k].kind != Plain
    requires forall k :: 0 <= k < |r| ==> r[k].text in MenuWords
    requires forall k :: 0 <= k < |r| ==> (r[k].kind == Destructive <==> r[k].text == "delete")
    ensures PlainAreNames(r, []) && ObjectsAreMenuWords(r)
  {
    forall t ensures Candidate(t, Plain) !in r {
      assert forall k :: 0 <= k < |r| ==> r[k] != Candidate(t, Plain);
    }
  }

  /** Action menu words followed by the record names as bare strings. */
  lemma AsKindPlain(names: seq<string>, menu: seq<Candidate>)
    requires forall k :: 0 <= k < |menu| ==> menu[k].kind == Action && menu[k].text in MenuWords && menu[k].text != "delete"
    ensures PlainAreNames(menu + AsKind(names, Plain), names)
    ensures ObjectsAreMenuWords(menu + AsKind(names, Plain))
  {
    var plain := AsKind(names, Plain);
    var r := menu + plain;
    assert forall k :: |menu| <= k < |r| ==> r[k] == plain[k - |menu|];
    forall t ensures Candidate(t, Plain) in r <==> t in names {
      if t in names {
        var i :| 0 <= i < |names| && names[i] == t;
        assert r[|menu| + i] == Candidate(t, Plain);
      }
      if Candidate(t, Plain) in r {
        var k :| 0 <= k < |r| && r[k] == Candidate(t, Plain);
        assert names[k - |menu|] == t;
      }
    }
  }

  /** Whether `line` is the text of some candidate: the loop of the default `validate`. */
  function MatchesSome(cands: seq<Candidate>, line: string): (r: bool)
    ensures r <==> exists i :: 0 <= i < |cands| && cands[i].text == line
  {
    if cands == [] then false
    else if cands[0].text == line then true
    else
      var rest := MatchesSome(cands[1..], line);
      assert forall i :: 1 <= i < |cands| ==> cands[i] == cands[1..][i - 1];
      assert rest ==> exists i :: 0 <= i < |cands| && cands[i].text == line by {
        if rest {
          var i :| 0 <= i < |cands[1..]| && cands[1..][i].text == line;
          assert cands[i + 1].text == line;
        }
      }
      rest
  }

  datatype Verdict = Accepted | Rejected(message: string)

  const InvalidAction: string := "Invalid action"
  const PortNotNumber: string := "Public port should be a number"

  /**
   * The inherited `validate`: an empty line, a line equal to the text of some
   * candidate (not a prefix of one), or one of the navigation tokens.
   */
  function DefaultValidate(cands: seq<Candidate>, line: string): (v: Verdict)
    ensures v.Accepted? <==> line == "" || line in Texts(cands) || line == "/" || line == ".."
    ensures v.Rejected? ==> v.message == InvalidAction
  {
    if line == "" then Accepted
    else if MatchesSome(cands, line) then Accepted
    else if line == "/" || line == ".." then Accepted
    else Rejected(InvalidAction)
  }

  /**
   * The forward list's own `validate`: a line starting with "delete" is refused
   * unless its last whitespace-separated token is a number; every other line
   * passes.
   */
  function ForwardListValidate(line: string): (v: Verdict)
    ensures v.Rejected? <==> StartsWith(line, "delete") && !IsDigits(LastToken(line))
    ensures v.Rejected? ==> v.message == PortNotNumber
  {
    if line == "/" || line == ".." || line == "print" then Accepted
    else if StartsWith(line, "delete") then
      if IsDigits(LastToken(line)) then Accepted else Rejected(PortNotNumber)
    else Accepted
  }

  /** `line.split()[-1]` for a line that starts with a non-blank character. */
  function LastToken(line: string): (t: string)
    requires StartsWith(line, "delete") || StartsWith(line, "createforward")
    ensures t != [] && NoWhitespace(t)
  {
    NonBlankSplits(line);
    var tokens := Split(line);
    tokens[|tokens| - 1]
  }

  lemma NonBlankSplits(line: string)
    requires line != [] && !IsWhitespace(line[0])
    ensures Split(line) != []
  {
    SplitEmptyIff(line);
  }

  /** `validate` of the component: the forward list overrides it, everyone else inherits it. */
  function Validate(c: Component, environments: seq<string>, line: string): Verdict {
    if c.ForwardList? then ForwardListValidate(line)
    else DefaultValidate(Candidates(c, environments), line)
  }

  /**
   * On a machine, a line beginning with "createforward" is accepted only when
   * it is exactly "createforward": the port arguments never get past validation.
   */
  lemma CreateForwardArgumentsRejected(vm: Vm, environments: seq<string>, line: string)
    requires StartsWith(line, "createforward")
    ensures Validate(VmView(vm), environments, line).Accepted? <==> line == "createforward"
  {
    var offered := Texts(Candidates(VmView(vm), environments));
    assert offered == StatusActions(vm.status) + ["createforward", "print", "delete"];
    if line in offered {
      assert line[..13] == "createforward";
    }
  }

  lemma LastTokenOfDelete(port: string)
    requires port != [] && NoWhitespace(port)
    ensures StartsWith("delete " + port, "delete")
    ensures LastToken("delete " + port) == port
  {
    var line := "delete " + port;
    assert line[..6] == "delete";
    assert JoinSpaced(["delete", port]) == line;
    SplitJoinSpaced(["delete", port]);
  }

  /** "delete <digits>" passes the forward list's check. */
  lemma ForwardDeleteNumberAccepted(port: string)
    requires IsDigits(port)
    ensures ForwardListValidate("delete " + port) == Accepted
  {
    LastTokenOfDelete(port);
  }

  /** "delete <word>" for a word that is not a number gets the port-format message, not the generic one. */
  lemma ForwardDeleteWordRejected(port: string)
    requires port != [] && NoWhitespace(port) && !IsDigits(port)
    ensures ForwardListValidate("delete " + port) == Rejected(PortNotNumber)
  {
    LastTokenOfDelete(port);
  }

  /** A bare "delete" is refused too: its last token is "delete" itself. */
  lemma ForwardBareDeleteRejected()
    ensures ForwardListValidate("delete") == Rejected(PortNotNumber)
  {
    SplitJoinSpaced(["delete"]);
    assert LastToken("delete") == "delete";
    assert !IsDigitChar('d');
  }

  /** Lines that do not start with "delete" pass, whatever they say. */
  lemma ForwardOtherLinesAccepted(line: string)
    requires !StartsWith(line, "delete")
    ensures ForwardListValidate(line) == Accepted
  {
  }

  /**
   * The breadcrumb text of a component (its `__str__`): only the root and a
   * record with an empty name show nothing.
   */
  function Label(c: Component): (r: string)
    ensures c.Root? ==> r == ""
    ensures r == "" ==> c.Root? || c.EnvSub? || c.CloudSpaceView? || c.VmView?
  {
    match c
    case Root => ""
    case EnvSub(env) => LastDotSegment(env)
    case CloudSpaceList(_) => "cloudspace"
    case CloudSpaceView(cs) => cs.name
    case VmList(_, _) => "vm"
    case VmView(vm) => vm.name
    case ForwardList(_, _) => "forwards"
    case Console(_) => "console"
  }

  /** The style class of a component's breadcrumb fragment. */
  function StyleClass(c: Component): string {
    match c
    case Root => "class:default"
    case EnvSub(_) => "class:env"
    case CloudSpaceList(_) => "class:cloudspaces"
    case CloudSpaceView(_) => "class:cloudspace"
    case VmList(_, _) => "class:machines"
    case VmView(_) => "class:machine"
    case ForwardList(_, _) => "class:forwards"
    case Console(_) => "class:console"
  }
}
