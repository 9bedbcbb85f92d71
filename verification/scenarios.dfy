/**
 * Browsing from the root to a running machine, a refused action on a halted
 * machine, and a declined forward delete.
 */
module Scenarios {
  import opened Base
  import opened Text
  import opened Records
  import opened Components
  import opened Shell
  import opened Navigation

  const Alpha: CloudSpace := CloudSpace(1, "alpha", "10.0.0.1")
  const Beta: CloudSpace := CloudSpace(2, "beta", "10.0.0.2")
  const Web1: Vm := Vm(7, "web1", Running)

  function Answers(confirmed: bool): Oracle {
    Oracle(confirmed, [Alpha, Beta], [Web1], [], [], Web1, "")
  }

  const S0: seq<Component> := [Root]
  const S1: seq<Component> := S0 + [EnvSub("prod")]
  const S2: seq<Component> := S1 + [CloudSpaceList([Alpha, Beta])]
  const S3: seq<Component> := S2 + [CloudSpaceView(Alpha)]
  const S4: seq<Component> := S3 + [VmList(Alpha, [Web1])]
  const S5: seq<Component> := S4 + [VmView(Web1)]

  lemma EnterEnvironment()
    ensures Step(["prod"], S0, "prod", Answers(false)) == Took(Moved(S1, SetEnvironment("prod")))
  {
  }

  lemma OpenCloudSpaces()
    ensures Step(["prod"], S1, "cloudspace", Answers(false)) == Took(Moved(S2, NoCall))
  {
  }

  lemma OpenAlpha()
    ensures Step(["prod"], S2, "alpha", Answers(false)) == Took(Moved(S3, NoCall))
  {
    assert Texts(Candidates(CloudSpaceList([Alpha, Beta]), ["prod"]))[2] == "alpha";
  }

  lemma OpenMachines()
    ensures Step(["prod"], S3, "vm", Answers(false)) == Took(Moved(S4, NoCall))
  {
  }

  lemma OpenWeb1()
    ensures Step(["prod"], S4, "web1", Answers(false)) == Took(Moved(S5, NoCall))
  {
    assert Texts(Candidates(VmList(Alpha, [Web1]), ["prod"]))[2] == "web1";
  }

  /**
   * From the root, "prod", "cloudspace", "alpha", "vm" and "web1" are each
   * accepted and lead to the running machine: a well-formed stack whose
   * completions are the machine's three status actions followed by
   * createforward, print and delete.
   */
  lemma BrowseToRunningMachine()
    ensures var o := Answers(false);
      && Step(["prod"], S0, "prod", o) == Took(Moved(S1, SetEnvironment("prod")))
      && Step(["prod"], S1, "cloudspace", o) == Took(Moved(S2, NoCall))
      && Step(["prod"], S2, "alpha", o) == Took(Moved(S3, NoCall))
      && Step(["prod"], S3, "vm", o) == Took(Moved(S4, NoCall))
      && Step(["prod"], S4, "web1", o) == Took(Moved(S5, NoCall))
      && WellFormed(["prod"], S5)
      && Texts(Candidates(VmView(Web1), ["prod"])) == ["stop", "reboot", "pause", "createforward", "print", "delete"]
  {
    EnterEnvironment();
    OpenCloudSpaces();
    OpenAlpha();
    OpenMachines();
    OpenWeb1();
    RunningMachineStack();
    RunningMachineOffers();
  }

  lemma RunningMachineStack()
    ensures WellFormed(["prod"], S5)
  {
    var envs := ["prod"];
    InitialWellFormed(envs);
    PushWellFormed(envs, S0, EnvSub("prod"));
    PushWellFormed(envs, S1, CloudSpaceList([Alpha, Beta]));
    PushWellFormed(envs, S2, CloudSpaceView(Alpha));
    PushWellFormed(envs, S3, VmList(Alpha, [Web1]));
    PushWellFormed(envs, S4, VmView(Web1));
  }

  lemma RunningMachineOffers()
    ensures Texts(Candidates(VmView(Web1), ["prod"])) == ["stop", "reboot", "pause", "createforward", "print", "delete"]
  {
    VmOffered(Web1, ["prod"]);
  }

  /** A halted machine does not offer "stop", so the line is refused as an invalid action. */
  lemma StopRefusedWhenHalted(stack: seq<Component>, id: int, name: string, o: Oracle)
    requires |stack| > 0 && stack[|stack| - 1] == VmView(Vm(id, name, Halted))
    ensures Step([], stack, "stop", o) == Refused(InvalidAction)
  {
    VmActionTable(Vm(id, name, Halted), []);
  }

  /**
   * Declining the confirmation of "delete <port>" with a numeric port is
   * accepted by validation, then issues no call and keeps the cached forwards.
   */
  lemma DeclinedForwardDelete(stack: seq<Component>, cs: CloudSpace, forwards: seq<Forward>, port: string, o: Oracle)
    requires |stack| > 0 && stack[|stack| - 1] == ForwardList(cs, forwards) && !o.confirmed
    requires IsDigits(port)
    ensures Step([], stack, "delete " + port, o) == Took(Moved(stack, NoCall))
  {
    ForwardDeleteNumberAccepted(port);
    ForwardDeleteKeepsState([], stack, port, o);
  }
}
