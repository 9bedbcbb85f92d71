/**
 * What the shell's transitions guarantee about the stack: it is always a path
 * from the root down the resource tree, the navigation tokens pop and reset
 * exactly, deletes happen only after confirmation, and the read loop keeps
 * all of this for any sequence of inputs.
 */
module Navigation {
  import opened Base
  import opened Text
  import opened Records
  import opened Components
  import opened Shell

  /** Which component may sit directly above which. */
  predicate ChildOf(environments: seq<string>, parent: Component, child: Component) {
    match parent
    case Root => child.EnvSub? && child.environment in environments
    case EnvSub(_) => child.Console? || child.CloudSpaceList?
    case CloudSpaceList(css) => child.CloudSpaceView? && child.cloudspace in css
    case CloudSpaceView(cs) => (child.VmList? || child.ForwardList?) && child.cloudspace == cs
    case VmList(_, _) => child.VmView?
    case VmView(_) => false
    case ForwardList(_, _) => false
    case Console(_) => false
  }

  /** The stack is a path from the root: every component is a child of the one below it. */
  predicate WellFormed(environments: seq<string>, stack: seq<Component>) {
    && |stack| > 0
    && stack[0] == Root
    && forall i :: 0 < i < |stack| ==> ChildOf(environments, stack[i - 1], stack[i])
  }

  /** How far below the root a component kind sits. */
  function Depth(c: Component): nat {
    match c
    case Root => 0
    case EnvSub(_) => 1
    case CloudSpaceList(_) => 2
    case Console(_) => 2
    case CloudSpaceView(_) => 3
    case VmList(_, _) => 4
    case ForwardList(_, _) => 4
    case VmView(_) => 5
  }

  lemma {:induction false} DepthIsIndex(environments: seq<string>, stack: seq<Component>, i: nat)
    requires WellFormed(environments, stack) && i < |stack|
    ensures Depth(stack[i]) == i
  {
    if i > 0 {
      DepthIsIndex(environments, stack, i - 1);
      assert ChildOf(environments, stack[i - 1], stack[i]);
    }
  }

  /**
   * A well-formed stack holds at most six components, and when a machine is
   * on top the fourth component is the cloudspace whose machine list sits
   * between them: the cloudspace `createforward` reads as `components[3]`.
   */
  lemma WellFormedShape(environments: seq<string>, stack: seq<Component>)
    requires WellFormed(environments, stack)
    ensures |stack| <= 6
    ensures forall i :: 0 < i < |stack| ==> !stack[i].Root?
    ensures stack[|stack| - 1].VmView? ==>
      |stack| == 6 && stack[3].CloudSpaceView? && stack[4].VmList? && stack[4].cloudspace == stack[3].cloudspace
      && OwningCloudSpace(stack) == Some(stack[3].cloudspace)
  {
    DepthIsIndex(environments, stack, |stack| - 1);
    forall i | 0 < i < |stack| ensures !stack[i].Root? {
      DepthIsIndex(environments, stack, i);
    }
    if stack[|stack| - 1].VmView? {
      assert ChildOf(environments, stack[4], stack[5]);
      assert ChildOf(environments, stack[3], stack[4]);
      DepthIsIndex(environments, stack, 3);
    }
  }

  /** The shell starts with the root alone. */
  lemma InitialWellFormed(environments: seq<string>)
    ensures WellFormed(environments, [Root])
  {
  }

  lemma PrefixWellFormed(environments: seq<string>, stack: seq<Component>, k: nat)
    requires WellFormed(environments, stack) && 0 < k <= |stack|
    ensures WellFormed(environments, stack[..k])
  {
    assert forall i :: 0 <= i < k ==> stack[..k][i] == stack[i];
  }

  lemma PushWellFormed(environments: seq<string>, stack: seq<Component>, c: Component)
    requires WellFormed(environments, stack) && ChildOf(environments, stack[|stack| - 1], c)
    ensures WellFormed(environments, stack + [c])
  {
    var s := stack + [c];
    assert forall i :: 0 <= i < |stack| ==> s[i] == stack[i];
  }

  lemma ReplaceTopWellFormed(environments: seq<string>, stack: seq<Component>, c: Component)
    requires WellFormed(environments, stack) && |stack| > 1
    requires ChildOf(environments, stack[|stack| - 2], c)
    ensures WellFormed(environments, ReplaceTop(stack, c))
  {
    var n := |stack|;
    PrefixWellFormed(environments, stack, n - 1);
    assert stack[..n - 1][n - 2] == stack[n - 2];
    PushWellFormed(environments, stack[..n - 1], c);
  }

  /** A non-root top of a well-formed stack sits above at least the root. */
  lemma NonRootTopHasParent(environments: seq<string>, stack: seq<Component>)
    requires WellFormed(environments, stack) && !stack[|stack| - 1].Root?
    ensures |stack| > 1
    ensures ChildOf(environments, stack[|stack| - 2], stack[|stack| - 1])
  {
  }

  /**
   * Every transition keeps the stack a path from the root; in particular it
   * is never emptied.
   */
  lemma TransitionPreservesWellFormed(environments: seq<string>, stack: seq<Component>, line: string, o: Oracle)
    requires WellFormed(environments, stack)
    ensures WellFormed(environments, Transition(environments, stack, line, o).stack)
  {
    var n := |stack|;
    var top := stack[n - 1];
    var m := Transition(environments, stack, line, o);
    if !top.Root? {
      NonRootTopHasParent(environments, stack);
    }
    if !top.Root? && (line == ".." || line == "/") {
      PrefixWellFormed(environments, stack, if line == ".." then n - 1 else 1);
    } else {
      match top
      case Root =>
        if line in environments { PushWellFormed(environments, stack, EnvSub(line)); }
      case EnvSub(_) =>
        if line == "console" { PushWellFormed(environments, stack, Console(o.nodes)); }
        else if line == "cloudspace" { PushWellFormed(environments, stack, CloudSpaceList(o.cloudspaces)); }
      case CloudSpaceList(css) => CloudSpaceListPreserves(environments, stack, css, line, o);
      case CloudSpaceView(cs) =>
        if line == "delete" { PrefixWellFormed(environments, stack, n - 1); }
        else if line == "vm" { PushWellFormed(environments, stack, VmList(cs, o.vms)); }
        else if line == "forwards" { PushWellFormed(environments, stack, ForwardList(cs, o.forwards)); }
      case VmList(cs, vms) =>
        if line == "create" { PushWellFormed(environments, stack, VmView(o.vm)); }
        else if line == "print" { ReplaceTopWellFormed(environments, stack, VmList(cs, o.vms)); }
        else {
          var found := FindVm(vms, line);
          if found.Some? { PushWellFormed(environments, stack, VmView(found.value)); }
        }
      case VmView(vm) =>
        if line == "delete" { PrefixWellFormed(environments, stack, n - 1); }
        else { ReplaceTopWellFormed(environments, stack, VmView(o.vm)); }
      case ForwardList(cs, _) =>
        ReplaceTopWellFormed(environments, stack, ForwardList(cs, o.forwards));
      case Console(_) =>
    }
  }

  lemma CloudSpaceListPreserves(environments: seq<string>, stack: seq<Component>, css: seq<CloudSpace>, line: string, o: Oracle)
    requires WellFormed(environments, stack) && stack[|stack| - 1] == CloudSpaceList(css)
    ensures WellFormed(environments, CloudSpaceListStep(stack, css, line, o).stack)
  {
    NonRootTopHasParent(environments, stack);
    if line == "create" {
      var refreshed := ReplaceTop(stack, CloudSpaceList(o.cloudspaces));
      ReplaceTopWellFormed(environments, stack, CloudSpaceList(o.cloudspaces));
      var found := FindCloudSpace(o.cloudspaces, o.name);
      if found.Some? {
        PushWellFormed(environments, refreshed, CloudSpaceView(found.value));
      }
    } else if line != "print" {
      var found := FindCloudSpace(css, line);
      if found.Some? {
        PushWellFormed(environments, stack, CloudSpaceView(found.value));
      }
    }
  }

  /**
   * Below the root, ".." removes exactly the top component and "/" keeps only
   * the bottom one; neither reaches the component's own logic or calls the client.
   */
  lemma NavigationTokens(environments: seq<string>, stack: seq<Component>, o: Oracle)
    requires |stack| > 0 && !stack[|stack| - 1].Root?
    ensures var up := Transition(environments, stack, "..", o);
      up.call == NoCall && up.stack + [stack[|stack| - 1]] == stack
    ensures var reset := Transition(environments, stack, "/", o);
      reset.call == NoCall && reset.stack == [stack[0]]
  {
  }

  /**
   * The root ignores ".." and "/" (unless they are environment names) and
   * only ever pushes an environment it was configured with.
   */
  lemma RootOnlyPushesEnvironments(environments: seq<string>, line: string, o: Oracle)
    ensures var m := Transition(environments, [Root], line, o);
      (line in environments ==> m.stack == [Root, EnvSub(line)] && m.call == SetEnvironment(line))
      && (line !in environments ==> m.stack == [Root] && m.call == NoCall)
  {
  }

  /**
   * Deleting a cloudspace or a machine happens only after confirmation: a
   * confirmed delete calls the client and pops one level, a declined one
   * changes nothing.
   */
  lemma DeleteNeedsConfirmation(environments: seq<string>, stack: seq<Component>, o: Oracle)
    requires |stack| > 0 && (stack[|stack| - 1].CloudSpaceView? || stack[|stack| - 1].VmView?)
    ensures var m := Transition(environments, stack, "delete", o);
      && (o.confirmed ==> m.stack + [stack[|stack| - 1]] == stack)
      && (!o.confirmed ==> m.stack == stack && m.call == NoCall)
    ensures var top := stack[|stack| - 1];
      o.confirmed && top.CloudSpaceView? ==>
        Transition(environments, stack, "delete", o).call == DeleteCloudSpace(top.cloudspace)
    ensures var top := stack[|stack| - 1];
      o.confirmed && top.VmView? ==> Transition(environments, stack, "delete", o).call == DeleteVm(top.vm.id)
  {
  }

  /**
   * A forward-list "delete <port>" never moves the stack nor refreshes the
   * cached forwards; it deletes the numbered port only when confirmed.
   */
  lemma ForwardDeleteKeepsState(environments: seq<string>, stack: seq<Component>, port: string, o: Oracle)
    requires |stack| > 0 && stack[|stack| - 1].ForwardList?
    requires port != [] && NoWhitespace(port)
    ensures var m := Transition(environments, stack, "delete " + port, o);
      && m.stack == stack
      && (m.call != NoCall <==> o.confirmed && IsDigits(port))
      && (m.call != NoCall ==> m.call == DeleteForward(stack[|stack| - 1].cloudspace, DigitsValue(port)))
  {
    var line := "delete " + port;
    assert line[..7] == "delete ";
    assert line != "print" && line != ".." && line != "/";
    TransitionOnForwardList(environments, stack, line, o);
    LastTokenOfDelete(port);
  }

  lemma TransitionOnForwardList(environments: seq<string>, stack: seq<Component>, line: string, o: Oracle)
    requires |stack| > 0 && stack[|stack| - 1].ForwardList? && line != ".." && line != "/"
    ensures Transition(environments, stack, line, o) == ForwardListStep(stack, stack[|stack| - 1].cloudspace, line, o)
  {
  }

  /**
   * On a machine, no accepted line creates a port forward: only the bare
   * "createforward" passes validation, and it is a usage error.
   */
  lemma CreateForwardNeverReachesClient(environments: seq<string>, stack: seq<Component>, line: string, o: Oracle)
    requires |stack| > 0 && stack[|stack| - 1].VmView?
    requires StartsWith(line, "createforward")
    ensures var r := Step(environments, stack, line, o);
      (r.Refused? <==> line != "createforward")
      && (r.Took? ==> r.moved == Moved(stack, Usage(UsageMessage)))
  {
    CreateForwardArgumentsRejected(stack[|stack| - 1].vm, environments, line);
    if line == "createforward" {
      var vm := stack[|stack| - 1].vm;
      BareCreateForwardIsUsage(line);
      LongLineIsNoVmCommand(line);
      assert VmStep(stack, vm, line, o) == Moved(stack, Usage(UsageMessage));
      TransitionOnVm(environments, stack, line, o);
    }
  }

  lemma TransitionOnVm(environments: seq<string>, stack: seq<Component>, line: string, o: Oracle)
    requires |stack| > 0 && stack[|stack| - 1].VmView? && line != ".." && line != "/"
    ensures Transition(environments, stack, line, o) == VmStep(stack, stack[|stack| - 1].vm, line, o)
  {
  }

  /**
   * Were the arguments to get through, a well-formed stack would create the
   * forward in the cloudspace that owns the machine's list.
   */
  lemma CreateForwardTargetsOwningCloudSpace(environments: seq<string>, stack: seq<Component>, ws: seq<string>, o: Oracle)
    requires WellFormed(environments, stack) && stack[|stack| - 1].VmView?
    requires Tokens(ws) && |ws| == 2 && ws[0] == "createforward" && IsDigits(ws[1])
    ensures var call := Transition(environments, stack, JoinSpaced(ws), o).call;
      && |stack| == 6 && stack[4].VmList? && stack[5].VmView?
      && call == CreateForward(stack[4].cloudspace, stack[5].vm.name, None, DigitsValue(ws[1]))
  {
    WellFormedShape(environments, stack);
    CreateForwardTwoTokens(ws);
    var line := JoinSpaced(ws);
    JoinedStartsWithFirst(ws);
    TransitionCreatesForward(environments, stack, line, o, stack[4].cloudspace, None, DigitsValue(ws[1]));
  }

  lemma TransitionCreatesForward(environments: seq<string>, stack: seq<Component>, line: string, o: Oracle,
                                 cs: CloudSpace, publicPort: Option<nat>, privatePort: nat)
    requires |stack| > 0 && stack[|stack| - 1].VmView? && StartsWith(line, "createforward")
    requires ParseCreateForward(line) == Ports(publicPort, privatePort) && OwningCloudSpace(stack) == Some(cs)
    ensures Transition(environments, stack, line, o) == Moved(stack, CreateForward(cs, stack[|stack| - 1].vm.name, publicPort, privatePort))
  {
    LongLineIsNoVmCommand(line);
    TransitionOnVm(environments, stack, line, o);
    VmStepCreatesForward(stack, stack[|stack| - 1].vm, line, o, cs, publicPort, privatePort);
  }

  /**
   * The "Name: " prompt of cloudspace creation is checked by the list's own
   * validator, so only a name already listed (or "", a menu word or a
   * navigation token) can be entered there.
   */
  lemma CreateNameMustBeListed(environments: seq<string>, css: seq<CloudSpace>, name: string)
    requires Validate(CloudSpaceList(css), environments, name).Accepted?
    ensures name in CloudSpaceNames(css) || name in ["", "create", "print", "/", ".."]
  {
    var cands := Candidates(CloudSpaceList(css), environments);
    if name in Texts(cands) {
      var i :| 0 <= i < |cands| && cands[i].text == name;
      if i >= 2 {
        assert name == CloudSpaceNames(css)[i - 2];
      }
    }
  }

  /** A bare-string completion is a line the default validator lets through. */
  lemma OfferedIsAccepted(c: Component, environments: seq<string>, name: string)
    requires !c.ForwardList? && Candidate(name, Plain) in Candidates(c, environments)
    ensures Validate(c, environments, name).Accepted?
  {
    var cands := Candidates(c, environments);
    var i :| 0 <= i < |cands| && cands[i] == Candidate(name, Plain);
    assert Texts(cands)[i] == name;
  }

  /**
   * Completion and transition agree on a cloudspace list: entering a name it
   * offers as a bare string (other than its own menu words and the navigation
   * tokens) opens the first cloudspace of that name, one level up, without a call.
   */
  lemma OfferedCloudSpaceOpens(environments: seq<string>, stack: seq<Component>, css: seq<CloudSpace>, name: string, o: Oracle)
    requires |stack| > 0 && stack[|stack| - 1] == CloudSpaceList(css)
    requires Candidate(name, Plain) in Candidates(CloudSpaceList(css), environments)
    requires name !in ["create", "print", "..", "/"]
    ensures var r := Step(environments, stack, name, o);
      && r.Took? && r.moved.call == NoCall
      && |r.moved.stack| == |stack| + 1 && r.moved.stack[..|stack|] == stack
      && r.moved.stack[|stack|].CloudSpaceView?
      && r.moved.stack[|stack|].cloudspace in css
      && r.moved.stack[|stack|].cloudspace.name == name
  {
    CompleterKinds(CloudSpaceList(css), environments);
    OfferedIsAccepted(CloudSpaceList(css), environments, name);
    var i :| 0 <= i < |css| && CloudSpaceNames(css)[i] == name;
    assert css[i].name == name;
    var found := FindCloudSpace(css, name);
    assert CloudSpaceListStep(stack, css, name, o) == Moved(stack + [CloudSpaceView(found.value)], NoCall);
    assert Transition(environments, stack, name, o) == CloudSpaceListStep(stack, css, name, o);
  }

  /** The same agreement on a machine list: an offered machine name opens that machine. */
  lemma OfferedVmOpens(environments: seq<string>, stack: seq<Component>, cs: CloudSpace, vms: seq<Vm>, name: string, o: Oracle)
    requires |stack| > 0 && stack[|stack| - 1] == VmList(cs, vms)
    requires Candidate(name, Plain) in Candidates(VmList(cs, vms), environments)
    requires name !in ["create", "print", "..", "/"]
    ensures var r := Step(environments, stack, name, o);
      && r.Took? && r.moved.call == NoCall
      && |r.moved.stack| == |stack| + 1 && r.moved.stack[..|stack|] == stack
      && r.moved.stack[|stack|].VmView?
      && r.moved.stack[|stack|].vm in vms
      && r.moved.stack[|stack|].vm.name == name
  {
    CompleterKinds(VmList(cs, vms), environments);
    OfferedIsAccepted(VmList(cs, vms), environments, name);
    var i :| 0 <= i < |vms| && VmNames(vms)[i] == name;
    assert vms[i].name == name;
    var found := FindVm(vms, name);
    assert VmListStep(stack, cs, vms, name, o) == Moved(stack + [VmView(found.value)], NoCall);
    assert Transition(environments, stack, name, o) == VmListStep(stack, cs, vms, name, o);
  }

  /**
   * A step that opens a child without calling the client was typed as that
   * child's label: a menu word, a cloudspace name or a machine name.
   */
  lemma OpenedChildIsLabelled(environments: seq<string>, stack: seq<Component>, line: string, o: Oracle)
    requires |stack| > 0
    ensures var m := Transition(environments, stack, line, o);
      m.call == NoCall && |m.stack| == |stack| + 1 ==> Label(m.stack[|stack|]) == line
  {
    var top := stack[|stack| - 1];
    match top
    case CloudSpaceList(css) =>
      var found := FindCloudSpace(css, line);
    case VmList(_, vms) =>
      var found := FindVm(vms, line);
    case _ =>
  }

  /** The loop of `make_prompt`: every input line is either refused or taken, starting from the root. */
  method Run(environments: seq<string>, lines: seq<string>, answers: seq<Oracle>)
    returns (stack: seq<Component>, calls: seq<Call>)
    requires |answers| == |lines|
    ensures WellFormed(environments, stack)
    ensures 1 <= |stack| <= 6
    ensures |calls| <= |lines|
    ensures forall k :: 0 <= k < |calls| ==> !calls[k].CreateForward? && !calls[k].Fault?
  {
    stack := [Root];
    calls := [];
    var k := 0;
    while k < |lines|
      invariant 0 <= k <= |lines|
      invariant WellFormed(environments, stack)
      invariant |calls| <= k
      invariant forall j :: 0 <= j < |calls| ==> !calls[j].CreateForward? && !calls[j].Fault?
    {
      var outcome := Step(environments, stack, lines[k], answers[k]);
      if outcome.Took? {
        StepCallsSafely(environments, stack, lines[k], answers[k]);
        TransitionPreservesWellFormed(environments, stack, lines[k], answers[k]);
        stack := outcome.moved.stack;
        calls := calls + [outcome.moved.call];
      }
      k := k + 1;
    }
    WellFormedShape(environments, stack);
  }

  /** From a well-formed stack, an accepted line never creates a forward and never faults. */
  lemma StepCallsSafely(environments: seq<string>, stack: seq<Component>, line: string, o: Oracle)
    requires WellFormed(environments, stack)
    ensures var r := Step(environments, stack, line, o);
      r.Took? ==> !r.moved.call.CreateForward? && !r.moved.call.Fault?
  {
    var m := Transition(environments, stack, line, o);
    if m.call.CreateForward? || m.call.Fault? {
      OnlyMachinesCreateForwards(environments, stack, line, o);
      CreateForwardNeverReachesClient(environments, stack, line, o);
    }
  }

  /**
   * The only transition that reaches `create_forward`, or the lookup of the
   * owning cloudspace that can fault, is a machine's "createforward" line.
   */
  lemma OnlyMachinesCreateForwards(environments: seq<string>, stack: seq<Component>, line: string, o: Oracle)
    requires |stack| > 0
    ensures var call := Transition(environments, stack, line, o).call;
      (call.CreateForward? || call.Fault?) ==> stack[|stack| - 1].VmView? && StartsWith(line, "createforward")
  {
    var top := stack[|stack| - 1];
    if top.VmView? && line != ".." && line != "/" {
      TransitionOnVm(environments, stack, line, o);
    }
  }
}
