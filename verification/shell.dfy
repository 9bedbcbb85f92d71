/**
 * The navigation shell: a stack of components whose top is the current
 * context. One accepted line is handed to the top component, which pops,
 * resets to the root, pushes a child, refreshes itself, or only issues a
 * client call. Remote results, the yes/no dialog and nested prompts are
 * inputs (`Oracle`); the client calls a step issues are its output (`Call`).
 */
module Shell {
  import opened Base
  import opened Text
  import opened Records
  import opened Components

  /**
   * What the outside world answers during one step: the yes/no confirmation,
   * the lists the client fetches, the machine record a `get` (or the machine
   * creation) returns, and the answer to the "Name: " prompt.
   */
  datatype Oracle = Oracle(
    confirmed: bool,
    cloudspaces: seq<CloudSpace>,
    vms: seq<Vm>,
    forwards: seq<Forward>,
    nodes: seq<string>,
    vm: Vm,
    name: string)

  /** The state-changing or user-visible client call one step issues. */
  datatype Call =
    | NoCall
    | SetEnvironment(environment: string)
    | CreateCloudSpace(name: string)
    | DeleteCloudSpace(cloudspace: CloudSpace)
    | CreateMachine(cloudspace: CloudSpace)
    | DeleteVm(vmId: int)
    | VmAction(kind: string, vmId: int)
    | CreateForward(cloudspace: CloudSpace, machine: string, publicPort: Option<nat>, privatePort: nat)
    | DeleteForward(cloudspace: CloudSpace, port: nat)
    | ConnectNode(node: string)
    | PrintCloudSpaces(cloudspaces: seq<CloudSpace>)
    | PrintVms(cloudspace: CloudSpace, vms: seq<Vm>)
    | PrintForwards(cloudspace: CloudSpace, forwards: seq<Forward>)
    | PrintVm(vm: Vm)
    | Usage(message: string)    // printed by the createforward parser; no client call
    | Fault                     // a Python exception (`components[3]` missing)

  datatype Moved = Moved(stack: seq<Component>, call: Call)

  /** The status actions the machine component forwards to `vm_action`. */
  const VmActionNames: seq<string> := ["start", "reboot", "pause", "resume", "stop"]

  const UsageMessage: string := "Invalid call, usages:\n createforward [publicport] privateport"
  const PortsMessage: string := "Ports should be numbers"

  function Pop(stack: seq<Component>): seq<Component>
    requires |stack| > 0
  {
    stack[..|stack| - 1]
  }

  function ReplaceTop(stack: seq<Component>, c: Component): seq<Component>
    requires |stack| > 0
  {
    stack[..|stack| - 1] + [c]
  }

  /** The position of the first of `names` equal to `name`: the lookup loops that break on a name match. */
  function FirstNamed(names: seq<string>, name: string): (r: Option<nat>)
    ensures r.None? <==> name !in names
    ensures r.Some? ==> r.value < |names| && names[r.value] == name
    ensures r.Some? ==> forall j :: 0 <= j < r.value ==> names[j] != name
  {
    if names == [] then None
    else if names[0] == name then Some(0)
    else
      var rest := FirstNamed(names[1..], name);
      assert forall i :: 1 <= i < |names| ==> names[i] == names[1..][i - 1];
      assert name in names ==> name in names[1..];
      if rest.Some? then Some(rest.value + 1) else None
  }

  /** The first cloudspace of the list with the given name. */
  function FindCloudSpace(css: seq<CloudSpace>, name: string): (r: Option<CloudSpace>)
    ensures r.None? <==> forall i :: 0 <= i < |css| ==> css[i].name != name
    ensures r.Some? ==> exists i :: (0 <= i < |css| && css[i] == r.value && r.value.name == name
      && forall j :: 0 <= j < i ==> css[j].name != name)
  {
    var names := CloudSpaceNames(css);
    var k := FirstNamed(names, name);
    if k.Some? then
      Some(css[k.value])
    else
      assert forall i :: 0 <= i < |css| ==> names[i] == css[i].name;
      None
  }

  /** The first machine of the list with the given name. */
  function FindVm(vms: seq<Vm>, name: string): (r: Option<Vm>)
    ensures r.None? <==> forall i :: 0 <= i < |vms| ==> vms[i].name != name
    ensures r.Some? ==> exists i :: (0 <= i < |vms| && vms[i] == r.value && r.value.name == name
      && forall j :: 0 <= j < i ==> vms[j].name != name)
  {
    var names := VmNames(vms);
    var k := FirstNamed(names, name);
    if k.Some? then
      Some(vms[k.value])
    else
      assert forall i :: 0 <= i < |vms| ==> names[i] == vms[i].name;
      None
  }

  /** The outcome of the `createforward` argument parser. */
  datatype ForwardArgs = BadUsage(message: string) | Ports(publicPort: Option<nat>, privatePort: nat)

  predicate AllDigitsAfterFirst(segments: seq<string>) {
    forall k :: 1 <= k < |segments| ==> IsDigits(segments[k])
  }

  /**
   * The parser of `createforward [publicport] privateport`: two or three
   * whitespace-separated tokens, all after the first being numbers; with two,
   * the number is the private port; with three, public then private.
   */
  function ParseCreateForward(line: string): (a: ForwardArgs)
    ensures a.Ports? <==> (|Split(line)| == 2 || |Split(line)| == 3) && AllDigitsAfterFirst(Split(line))
    ensures a.BadUsage? && (|Split(line)| == 2 || |Split(line)| == 3) ==> a.message == PortsMessage
    ensures a.BadUsage? && |Split(line)| != 2 && |Split(line)| != 3 ==> a.message == UsageMessage
    ensures a.Ports? ==> (a.publicPort.None? <==> |Split(line)| == 2)
  {
    var segments := Split(line);
    if |segments| != 2 && |segments| != 3 then BadUsage(UsageMessage)
    else if !AllDigitsAfterFirst(segments) then BadUsage(PortsMessage)
    else if |segments| == 2 then Ports(None, DigitsValue(segments[1]))
    else Ports(Some(DigitsValue(segments[1])), DigitsValue(segments[2]))
  }

  /** "kw private": a number gives a private port and an automatic public one. */
  lemma CreateForwardTwoTokens(ws: seq<string>)
    requires Tokens(ws) && |ws| == 2
    ensures IsDigits(ws[1]) ==> ParseCreateForward(JoinSpaced(ws)) == Ports(None, DigitsValue(ws[1]))
    ensures !IsDigits(ws[1]) ==> ParseCreateForward(JoinSpaced(ws)) == BadUsage(PortsMessage)
  {
    var line := JoinSpaced(ws);
    SplitJoinSpaced(ws);
    assert Split(line) == ws;
    if IsDigits(ws[1]) {
      forall k | 1 <= k < |ws| ensures IsDigits(ws[k]) { assert k == 1; }
      assert ParseCreateForward(line) == Ports(None, DigitsValue(ws[1]));
    } else {
      assert !AllDigitsAfterFirst(ws);
      assert ParseCreateForward(line) == BadUsage(PortsMessage);
    }
  }

  /** "kw public private": two numbers give both ports, public first. */
  lemma CreateForwardThreeTokens(ws: seq<string>)
    requires Tokens(ws) && |ws| == 3
    ensures IsDigits(ws[1]) && IsDigits(ws[2]) ==>
      ParseCreateForward(JoinSpaced(ws)) == Ports(Some(DigitsValue(ws[1])), DigitsValue(ws[2]))
    ensures !IsDigits(ws[1]) || !IsDigits(ws[2]) ==> ParseCreateForward(JoinSpaced(ws)) == BadUsage(PortsMessage)
  {
    var line := JoinSpaced(ws);
    SplitJoinSpaced(ws);
    assert Split(line) == ws;
    if IsDigits(ws[1]) && IsDigits(ws[2]) {
      forall k | 1 <= k < |ws| ensures IsDigits(ws[k]) { assert k == 1 || k == 2; }
      assert ParseCreateForward(line) == Ports(Some(DigitsValue(ws[1])), DigitsValue(ws[2]));
    } else {
      assert !AllDigitsAfterFirst(ws);
      assert ParseCreateForward(line) == BadUsage(PortsMessage);
    }
  }

  /** The keyword alone, or with more than two arguments, is a usage error. */
  lemma CreateForwardWrongCount(ws: seq<string>)
    requires Tokens(ws) && |ws| != 2 && |ws| != 3
    ensures ParseCreateForward(JoinSpaced(ws)) == BadUsage(UsageMessage)
  {
    SplitJoinSpaced(ws);
  }

  /** No line as long as "createforward" is a navigation token or another machine command. */
  lemma LongLineIsNoVmCommand(line: string)
    requires |line| >= 13
    ensures line != "delete" && line !in VmActionNames && line != "print" && line != ".." && line != "/"
  {
    assert forall a | a in VmActionNames :: |a| <= 6;
  }

  /** A parsed createforward line on a machine whose stack has an owning cloudspace calls the client. */
  lemma VmStepCreatesForward(stack: seq<Component>, vm: Vm, line: string, o: Oracle, cs: CloudSpace, publicPort: Option<nat>, privatePort: nat)
    requires |stack| > 0 && StartsWith(line, "createforward")
    requires ParseCreateForward(line) == Ports(publicPort, privatePort) && OwningCloudSpace(stack) == Some(cs)
    ensures VmStep(stack, vm, line, o) == Moved(stack, CreateForward(cs, vm.name, publicPort, privatePort))
  {
    LongLineIsNoVmCommand(line);
  }

  /** A line of one token, as the bare keyword is, is a usage error. */
  lemma OneTokenIsUsage(line: string)
    requires |Split(line)| == 1
    ensures ParseCreateForward(line) == BadUsage(UsageMessage)
  {
  }

  /** The bare keyword, the only form the machine's validator lets through, is a usage error. */
  lemma BareCreateForwardIsUsage(line: string)
    requires line == "createforward"
    ensures ParseCreateForward(line) == BadUsage(UsageMessage)
  {
    LettersHaveNoWhitespace(line);
    SplitSingleToken(line);
    OneTokenIsUsage(line);
  }

  /**
   * `components[3].cloudspace`: the cloudspace held by the fourth component,
   * or nothing when that lookup would raise.
   */
  function OwningCloudSpace(stack: seq<Component>): Option<CloudSpace> {
    if |stack| > 3 && (stack[3].CloudSpaceView? || stack[3].VmList? || stack[3].ForwardList?)
    then Some(stack[3].cloudspace)
    else None
  }

  function RootStep(environments: seq<string>, stack: seq<Component>, line: string): Moved {
    if line in environments then Moved(stack + [EnvSub(line)], SetEnvironment(line))
    else Moved(stack, NoCall)
  }

  function EnvSubStep(stack: seq<Component>, line: string, o: Oracle): Moved {
    if line == "console" then Moved(stack + [Console(o.nodes)], NoCall)
    else if line == "cloudspace" then Moved(stack + [CloudSpaceList(o.cloudspaces)], NoCall)
    else Moved(stack, NoCall)
  }

  /**
   * "print" shows the cached list; "create" creates the cloudspace named at the
   * prompt, refreshes the list and then acts as if that name had been entered;
   * a cloudspace name pushes that cloudspace.
   */
  function CloudSpaceListStep(stack: seq<Component>, css: seq<CloudSpace>, line: string, o: Oracle): Moved
    requires |stack| > 0
  {
    if line == "print" then Moved(stack, PrintCloudSpaces(css))
    else if line == "create" then
      var refreshed := ReplaceTop(stack, CloudSpaceList(o.cloudspaces));
      match FindCloudSpace(o.cloudspaces, o.name)
      case Some(cs) => Moved(refreshed + [CloudSpaceView(cs)], CreateCloudSpace(o.name))
      case None => Moved(refreshed, CreateCloudSpace(o.name))
    else
      match FindCloudSpace(css, line)
      case Some(cs) => Moved(stack + [CloudSpaceView(cs)], NoCall)
      case None => Moved(stack, NoCall)
  }

  function CloudSpaceStep(stack: seq<Component>, cs: CloudSpace, line: string, o: Oracle): Moved
    requires |stack| > 0
  {
    if line == "delete" then
      if o.confirmed then Moved(Pop(stack), DeleteCloudSpace(cs)) else Moved(stack, NoCall)
    else if line == "vm" then Moved(stack + [VmList(cs, o.vms)], NoCall)
    else if line == "forwards" then Moved(stack + [ForwardList(cs, o.forwards)], NoCall)
    else Moved(stack, NoCall)
  }

  function VmListStep(stack: seq<Component>, cs: CloudSpace, vms: seq<Vm>, line: string, o: Oracle): Moved
    requires |stack| > 0
  {
    if line == "create" then Moved(stack + [VmView(o.vm)], CreateMachine(cs))
    else if line == "print" then Moved(ReplaceTop(stack, VmList(cs, o.vms)), PrintVms(cs, o.vms))
    else
      match FindVm(vms, line)
      case Some(vm) => Moved(stack + [VmView(vm)], NoCall)
      case None => Moved(stack, NoCall)
  }

  /**
   * Status actions call `vm_action` and refresh the record; `createforward`
   * parses its ports and creates the forward in the cloudspace four levels
   * down; "print" refreshes and shows; "delete" is confirmation-gated.
   */
  function VmStep(stack: seq<Component>, vm: Vm, line: string, o: Oracle): Moved
    requires |stack| > 0
  {
    if line == "delete" then
      if o.confirmed then Moved(Pop(stack), DeleteVm(vm.id)) else Moved(stack, NoCall)
    else if line in VmActionNames then
      Moved(ReplaceTop(stack, VmView(o.vm)), VmAction(line, vm.id))
    else if StartsWith(line, "createforward") then
      match ParseCreateForward(line)
      case BadUsage(message) => Moved(stack, Usage(message))
      case Ports(publicPort, privatePort) =>
        match OwningCloudSpace(stack)
        case Some(cs) => Moved(stack, CreateForward(cs, vm.name, publicPort, privatePort))
        case None => Moved(stack, Fault)
    else if line == "print" then Moved(ReplaceTop(stack, VmView(o.vm)), PrintVm(o.vm))
    else Moved(stack, NoCall)
  }

  /**
   * "print" refetches and shows the forwards; "delete <port>" with a numeric
   * last token deletes that public port once confirmed. Neither moves the stack,
   * and deletion leaves the cached list as it was.
   */
  function ForwardListStep(stack: seq<Component>, cs: CloudSpace, line: string, o: Oracle): Moved
    requires |stack| > 0
  {
    if line == "print" then
      Moved(ReplaceTop(stack, ForwardList(cs, o.forwards)), PrintForwards(cs, o.forwards))
    else if StartsWith(line, "delete ") then
      assert line[..6] == "delete";
      var port := LastToken(line);
      if IsDigits(port) && o.confirmed then Moved(stack, DeleteForward(cs, DigitsValue(port)))
      else Moved(stack, NoCall)
    else Moved(stack, NoCall)
  }

  function ConsoleStep(stack: seq<Component>, nodes: seq<string>, line: string): Moved {
    if line in nodes then Moved(stack, ConnectNode(line)) else Moved(stack, NoCall)
  }

  /**
   * `update_components` of the top component. Every component but the root
   * first handles ".." (drop the top) and "/" (keep only the bottom); the
   * root's own version skips that and only looks for an environment name.
   */
  function Transition(environments: seq<string>, stack: seq<Component>, line: string, o: Oracle): (m: Moved)
    requires |stack| > 0
    ensures forall i :: 0 <= i < |stack| - 1 && i < |m.stack| ==> m.stack[i] == stack[i]
    ensures |stack| - 1 <= |m.stack| <= |stack| + 1 || |m.stack| == 1
    ensures |m.stack| > 0 || (|stack| == 1 && !stack[0].Root?)
  {
    var top := stack[|stack| - 1];
    if !top.Root? && line == ".." then Moved(Pop(stack), NoCall)
    else if !top.Root? && line == "/" then Moved(stack[..1], NoCall)
    else
      match top
      case Root => RootStep(environments, stack, line)
      case EnvSub(_) => EnvSubStep(stack, line, o)
      case CloudSpaceList(css) => CloudSpaceListStep(stack, css, line, o)
      case CloudSpaceView(cs) => CloudSpaceStep(stack, cs, line, o)
      case VmList(cs, vms) => VmListStep(stack, cs, vms, line, o)
      case VmView(vm) => VmStep(stack, vm, line, o)
      case ForwardList(cs, _) => ForwardListStep(stack, cs, line, o)
      case Console(nodes) => ConsoleStep(stack, nodes, line)
  }

  datatype StepOutcome = Refused(message: string) | Took(moved: Moved)

  /**
   * One turn of the read loop: the top component's `validate` gates the line
   * (a refused line is re-prompted and changes nothing), then its transition runs.
   */
  function Step(environments: seq<string>, stack: seq<Component>, line: string, o: Oracle): (r: StepOutcome)
    requires |stack| > 0
    ensures r.Refused? ==> r.message == InvalidAction || r.message == PortNotNumber
    ensures r.Refused? <==> Validate(stack[|stack| - 1], environments, line).Rejected?
    ensures r.Took? ==> r.moved == Transition(environments, stack, line, o)
  {
    var verdict := Validate(stack[|stack| - 1], environments, line);
    if verdict.Rejected? then Refused(verdict.message)
    else Took(Transition(environments, stack, line, o))
  }

  /** A candidate offered while typing, anchored to replace the typed text. */
  datatype Suggestion = Suggestion(candidate: Candidate, startPosition: int)

  /** A bare empty string is falsy and skipped; completion objects are always truthy. */
  predicate TruthyCandidate(c: Candidate) {
    !(c.kind == Plain && c.text == "")
  }

  /** The filter of `get_completions_async`: a candidate is kept when the typed text occurs in it. */
  function Suggest(cands: seq<Candidate>, typed: string): (r: seq<Suggestion>)
    ensures forall k :: 0 <= k < |r| ==> r[k].startPosition == -|typed|
    ensures forall c :: Suggestion(c, -|typed|) in r <==> c in cands && TruthyCandidate(c) && Contains(c.text, typed)
    ensures |r| <= |cands|
  {
    if cands == [] then []
    else
      var rest := Suggest(cands[1..], typed);
      assert forall c :: c in cands <==> c == cands[0] || c in cands[1..];
      if TruthyCandidate(cands[0]) && Contains(cands[0].text, typed) then
        [Suggestion(cands[0], -|typed|)] + rest
      else rest
  }

  /** Live completion: the top component's candidates narrowed by the text typed so far. */
  function LiveCompletions(environments: seq<string>, stack: seq<Component>, typed: string): (r: seq<Suggestion>)
    requires |stack| > 0
    ensures forall c :: Suggestion(c, -|typed|) in r <==>
      c in Candidates(stack[|stack| - 1], environments) && TruthyCandidate(c) && Contains(c.text, typed)
  {
    Suggest(Candidates(stack[|stack| - 1], environments), typed)
  }

  /** Substring, not prefix: a candidate is offered for any piece of its text. */
  lemma SubstringCompletion(environments: seq<string>, stack: seq<Component>, c: Candidate, i: nat, j: nat)
    requires |stack| > 0 && c in Candidates(stack[|stack| - 1], environments) && TruthyCandidate(c)
    requires i <= j <= |c.text|
    ensures Suggestion(c, -(j - i)) in LiveCompletions(environments, stack, c.text[i..j])
  {
    SuggestsPiece(Candidates(stack[|stack| - 1], environments), c, i, j);
  }

  lemma SuggestsPiece(cands: seq<Candidate>, c: Candidate, i: nat, j: nat)
    requires c in cands && TruthyCandidate(c) && i <= j <= |c.text|
    ensures Suggestion(c, -(j - i)) in Suggest(cands, c.text[i..j])
  {
    var typed := c.text[i..j];
    assert OccursAt(c.text, typed, i);
    assert Contains(c.text, typed);
    assert -(j - i) == -|typed|;
  }

  /** One styled piece of the prompt. */
  datatype Fragment = Fragment(style: string, text: string)

  const Separator: Fragment := Fragment("class:default", "/")
  const PromptEnd: Fragment := Fragment("class:default", " > ")

  function Message(c: Component): Fragment {
    Fragment(StyleClass(c), Label(c))
  }

  /** The loop of `make_prompt`: each component's message followed by a separator. */
  function Fragments(stack: seq<Component>): (r: seq<Fragment>)
    ensures |r| == 2 * |stack|
  {
    if stack == [] then []
    else Fragments(stack[..|stack| - 1]) + [Message(stack[|stack| - 1]), Separator]
  }

  lemma {:induction false} FragmentsShape(stack: seq<Component>)
    ensures forall i :: 0 <= i < |stack| ==> Fragments(stack)[2 * i] == Message(stack[i])
    ensures forall i :: 0 <= i < |stack| ==> Fragments(stack)[2 * i + 1] == Separator
  {
    if stack != [] {
      var n := |stack|;
      var prefix := stack[..n - 1];
      FragmentsShape(prefix);
      assert Fragments(stack) == Fragments(prefix) + [Message(stack[n - 1]), Separator];
      forall i | 0 <= i < n
        ensures Fragments(stack)[2 * i] == Message(stack[i]) && Fragments(stack)[2 * i + 1] == Separator
      {
        if i < n - 1 {
          assert prefix[i] == stack[i];
        }
      }
    }
  }

  /** The prompt of `make_prompt`: the fragments with the final separator replaced by " > ". */
  function Breadcrumb(stack: seq<Component>): (r: seq<Fragment>)
    requires |stack| > 0
    ensures |r| == 2 * |stack| && r[2 * |stack| - 1] == PromptEnd
  {
    var all := Fragments(stack);
    all[..2 * |stack| - 1] + [PromptEnd]
  }

  /**
   * Each component contributes its styled label, separated by "/" fragments,
   * and the last separator is the " > " prompt end.
   */
  lemma BreadcrumbShape(stack: seq<Component>)
    requires |stack| > 0
    ensures forall i :: 0 <= i < |stack| ==> Breadcrumb(stack)[2 * i] == Message(stack[i])
    ensures forall i :: 0 <= i < |stack| - 1 ==> Breadcrumb(stack)[2 * i + 1] == Separator
  {
    FragmentsShape(stack);
  }

  function TextOf(fs: seq<Fragment>): string {
    if fs == [] then "" else TextOf(fs[..|fs| - 1]) + fs[|fs| - 1].text
  }

  /** The labels of the stack joined with "/". */
  function JoinLabels(stack: seq<Component>): string
    requires |stack| > 0
  {
    if |stack| == 1 then Label(stack[0])
    else JoinLabels(stack[..|stack| - 1]) + "/" + Label(stack[|stack| - 1])
  }

  lemma TextOfSnoc(fs: seq<Fragment>, f: Fragment)
    ensures TextOf(fs + [f]) == TextOf(fs) + f.text
  {
    assert (fs + [f])[..|fs|] == fs;
  }

  lemma {:induction false} TextOfFragments(stack: seq<Component>)
    requires |stack| > 0
    ensures TextOf(Fragments(stack)) == JoinLabels(stack) + "/"
  {
    var n := |stack|;
    var m := Message(stack[n - 1]);
    var prior := Fragments(stack[..n - 1]);
    assert Fragments(stack) == (prior + [m]) + [Separator];
    TextOfSnoc(prior + [m], Separator);
    TextOfSnoc(prior, m);
    if n > 1 {
      TextOfFragments(stack[..n - 1]);
      assert stack[..n - 1][..n - 2] == stack[..n - 2];
    } else {
      assert prior == [];
    }
  }

  /**
   * The prompt reads as the labels joined with "/" and ended by " > ": the
   * root's empty label makes it start with "/" below the root.
   */
  lemma PromptText(stack: seq<Component>)
    requires |stack| > 0
    ensures TextOf(Breadcrumb(stack)) == JoinLabels(stack) + " > "
  {
    var n := |stack|;
    var m := Message(stack[n - 1]);
    var prior := Fragments(stack[..n - 1]);
    BreadcrumbSnoc(stack);
    TextOfSnoc(prior + [m], PromptEnd);
    TextOfSnoc(prior, m);
    if n > 1 {
      TextOfFragments(stack[..n - 1]);
    } else {
      assert prior == [];
    }
  }

  lemma BreadcrumbSnoc(stack: seq<Component>)
    requires |stack| > 0
    ensures Breadcrumb(stack) == (Fragments(stack[..|stack| - 1]) + [Message(stack[|stack| - 1])]) + [PromptEnd]
  {
    var n := |stack|;
    var prior := Fragments(stack[..n - 1]);
    var m := Message(stack[n - 1]);
    assert Fragments(stack) == (prior + [m]) + [Separator];
    assert Fragments(stack)[..2 * n - 1] == prior + [m];
  }

}
