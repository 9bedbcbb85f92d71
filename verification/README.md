# ovcli navigation shell — a Dafny model

`ovcli` is a command-line client for an OpenvCloud environment. Its interactive
shell is a stack of components — the root (the configured environments), an
environment, its cloudspace list, one cloudspace, its machine list or its port
forwards, one machine, and the node console. Each component offers completions
for the line being typed, decides whether an entered line is acceptable, and
then moves the stack: push a child, pop with `..`, reset with `/`, or stay
where it is while calling the API client. The prompt is a breadcrumb of the
components' labels.

This project models that engine as pure functions over a `seq<Component>`,
together with the two pure helpers of the utility file and the decision logic
inside the client's methods:

- `base.dfy`: `Option` and `Result`.
- `text.dfy`: the Python string behaviour the shell relies on. This covers
  `str.split()` with Python's whitespace set, `str.isdigit()`, `int`/`str` on
  digit strings, `sub in s`, `startswith` and `split(".")[-1]`.
- `sorting.dfy`: `sorted()` on strings, proved to give the unique sorted rearrangement.
- `utils.dfy`: the padding step of `base64url_decode` and `select_item`.
- `records.dfy`: the fetched records (cloudspaces, machines, forwards, NICs, nodes, images).
- `client.py` decisions in `client.dfy`:
  - public-port allocation and defaulting;
  - the forward and cloudspace payloads;
  - the node address and its fallback;
  - the ssh command;
  - the image choice.
- `components.dfy`: the component variants and their completions, the acceptance
  checks (`validate`), and the breadcrumb labels and styles.
- `shell.dfy`:
  - every component's `update_components`, as one `Transition`;
  - the validate-then-transition `Step`;
  - live completion;
  - the breadcrumb prompt.
- `navigation.dfy`:
  - the stack invariant: the stack is a path from the root down the resource tree;
  - its preservation by every transition;
  - the read loop of `make_prompt`, as `Run`.
- `scenarios.dfy`: a browse from the root to a running machine, and two single-step cases.

Everything the shell receives from outside one step is an input:
- the answer to a confirmation dialog;
- the lists the client would fetch;
- the machine record after an action;
- the name typed at the "Name: " prompt.

These come together in one `Shell.Oracle` value per step. The client is not
called. A step reports the client call it would make as a `Shell.Call`.

The model follows the code where the code differs from what the program appears
to intend:

- Live completion matches the typed text anywhere inside a candidate, not only
  as a prefix.
- A machine inherits the exact-match validator, so `createforward 22` is
  refused as "Invalid action". The argument parser is reached only by the bare
  keyword, which it answers with the usage message. The lemmas
  `Navigation.CreateForwardNeverReachesClient` and `Navigation.StepCallsSafely`
  state this.
- The forward list accepts every line that does not start with `delete`.
- `select_item` sorts before it filters. An answer of `0` at the numbered prompt
  selects the last item.
- Cloudspace creation reads the new name through the shell's own prompt, whose
  validator is the cloudspace list's. A name not already listed is refused
  (`Navigation.CreateNameMustBeListed`).

## Model

| member | source | states |
|---|---|---|
| Text.Split | ovcli/shell.py:144 | `str.split()` gives a list of non-empty tokens, none holding whitespace |
| Text.SplitSkipsWhitespace | ovcli/shell.py:144 | a leading whitespace character does not change the split |
| Text.SplitLeadingToken | ovcli/shell.py:144 | a whitespace-free word followed by whitespace or the end is the first token, and the split continues after it |
| Text.SplitJoinSpaced | ovcli/shell.py:144 | splitting tokens joined by single spaces gives the tokens back: `str.split()` inverts the join |
| Text.SplitEmptyIff | ovcli/shell.py:144-147 | `s.split()` is empty exactly when `s` is all whitespace |
| Text.DigitsRoundTrip | ovcli/client.py:255 | reading back the digits `str(n)` writes gives `n` again |
| Text.LastDotSegment | ovcli/shell.py:93-94 | `split(".")[-1]` is a suffix without a dot, preceded by a dot unless it is the whole string |
| Sorting.Sort | ovcli/utils.py:27 | `sorted(items)` is a sorted permutation of the items under code-point lexicographic order |
| Sorting.SortedPermutationUnique | ovcli/utils.py:27 | two sorted rearrangements of the same items are equal, so the sorted list is determined |
| Utils.Pad | ovcli/utils.py:11-14 | the padded input has a length that is a multiple of four, keeps the input as a prefix, adds fewer than four bytes, and adds only `=` |
| Utils.PadIdempotent | ovcli/utils.py:11-14 | padding an already padded input changes nothing |
| Utils.PadIsShortest | ovcli/utils.py:11-14 | no multiple of four at or above the input length is shorter than the padded length |
| Utils.FilterContaining | ovcli/utils.py:29 | every item containing the filter is kept as often as it occurs, every other item is dropped, and a sorted list stays sorted |
| Utils.WorkingList | ovcli/utils.py:27-31 | the working list is sorted; for a truthy filter it holds each item containing it as often as the input does and nothing else, otherwise it is a permutation of the input; it is a LookupError iff a truthy filter matches nothing |
| Utils.WorkingListUnique | ovcli/utils.py:27-33 | any sorted, non-empty list keeping exactly the matching items with their counts is the working list, so the single-candidate shortcut sees the true count |
| Utils.Pick | ovcli/utils.py:40-45 | an answer is a wrong value iff it is not digits or exceeds the count; it faults iff it is `0` on an empty list; a pick is always a listed item |
| Utils.PickIsOneBased | ovcli/utils.py:41-44 | a number `d` from 1 to `n` selects the `d`-th item |
| Utils.ZeroPicksLast | ovcli/utils.py:42-44 | the answer `0` becomes index -1, passes the bounds check, and selects the last item |
| Utils.NumberedPrompt | ovcli/utils.py:37-45 | wrong values are skipped; the first other answer decides the result; running out of answers is end of input; a result is a listed item |
| Utils.SelectItem | ovcli/utils.py:26-47 | LookupError iff a truthy filter matches nothing; a single candidate is returned without fzf or prompt; results not from fzf are listed items containing the filter; fzf decides otherwise when installed, the numbered prompt over the sorted filtered list when not |
| Client.FreePortFrom | ovcli/client.py:185-189 | the loop stops at the first port from its start that is not used, after passing only used ports |
| Client.GetPublicPort | ovcli/client.py:181-189 | the result is at least 3500, no forward uses it, and every port from 3500 below it is used |
| Client.LeastFreePortUnique | ovcli/client.py:185-189 | any port with those three properties is the one allocated |
| Client.CreateForwardRequest | ovcli/client.py:191-203 | a truthy public port passes through; None or 0 becomes the least free port; the local port is the private port; the protocol is tcp; the ids and IP come from the cloudspace and the machine |
| Client.MachineSshForward | ovcli/client.py:167-176 | a new machine's forward maps a free public port from 3500 to local port 22 over tcp |
| Client.DefaultedForwardMatchesMachineForward | ovcli/client.py:193-194 | a forward to port 22 with no public port, or public port 0, is the same request as a new machine's ssh forward |
| Client.GetNicIp | ovcli/client.py:241-246 | an address exists iff some interface of that name has one, and it is the first address of the first such interface |
| Client.NodeAddress | ovcli/client.py:247-249 | a non-empty backplane address wins; otherwise `ipaddr[0]` is used; the lookup fails iff both are missing |
| Client.SshCommand | ovcli/client.py:255-257 | the command is `ssh` first, then `-p` and the port's digits, then `user@ip` last; `-A` appears iff forwarding is on, at index 1, and removing it gives the plain command |
| Client.SelectImage | ovcli/client.py:132-139 | the result is the id of the first image whose name contains "Ubuntu 16.04", and it is a LookupError iff there is none |
| Client.CloudSpacePayload | ovcli/client.py:224-236 | the `type` key is present iff `cstype` is truthy; the typed name is used when none is given; the payload has the first location's code and the caller's login; an empty location list faults |
| Components.VmActionTable | ovcli/shell.py:163-175 | RUNNING offers stop, reboot and pause; HALTED offers start; PAUSED offers resume and stop; every status ends with createforward, print and a destructive delete; an unknown status offers only those three |
| Components.CompleterKinds | ovcli/shell.py:78-316 | the completers offer as bare strings exactly the names of the listed records: environments at the root, cloudspace or machine names in the lists, nodes in the console; every completion object is a fixed menu word, destructive iff it is `delete` |
| Components.Label | ovcli/shell.py:57-323 | the root's label is empty, and only components labelled by a record or environment name can have an empty label |
| Components.MatchesSome | ovcli/shell.py:64-68 | the loop finds a match iff some candidate's text equals the line |
| Components.DefaultValidate | ovcli/shell.py:60-71 | a line is accepted iff it is empty, equals a candidate's text, or is `/` or `..`; the refusal says "Invalid action" |
| Components.ForwardListValidate | ovcli/shell.py:240-247 | a line is refused iff it starts with `delete` and its last token is not a number; the refusal says "Public port should be a number" |
| Components.LastToken | ovcli/shell.py:245 | `line.split()[-1]` exists and is a non-empty token without whitespace |
| Components.CreateForwardArgumentsRejected | ovcli/shell.py:60-71 | on a machine, a line starting with createforward is accepted iff it is exactly `createforward` |
| Components.LastTokenOfDelete | ovcli/shell.py:235 | the last token of `delete <port>` is the port |
| Components.ForwardDeleteNumberAccepted | ovcli/shell.py:244-247 | `delete <digits>` passes the forward list's check |
| Components.ForwardDeleteWordRejected | ovcli/shell.py:244-247 | `delete <word>` with a non-numeric word is refused with the port message |
| Components.ForwardBareDeleteRejected | ovcli/shell.py:244-247 | a bare `delete` is refused, because its last token is `delete` |
| Components.ForwardOtherLinesAccepted | ovcli/shell.py:240-247 | every line not starting with `delete` is accepted |
| Shell.FirstNamed | ovcli/shell.py:205-209 | the position of the first name equal to the typed one; none iff no name is equal |
| Shell.FindCloudSpace | ovcli/shell.py:205-209 | the first listed cloudspace with that name, or none when no name matches |
| Shell.FindVm | ovcli/shell.py:279-283 | the first listed machine with that name, or none when no name matches |
| Shell.ParseCreateForward | ovcli/shell.py:143-157 | ports are parsed iff the line has 2 or 3 tokens, all numbers after the first; otherwise the usage or port message; the public port is absent iff there are 2 tokens |
| Shell.CreateForwardTwoTokens | ovcli/shell.py:152-154 | `createforward p` gives private port `p` and no public port, or the port message for a non-number |
| Shell.CreateForwardThreeTokens | ovcli/shell.py:155-157 | `createforward a b` gives public `a` and private `b`, or the port message if either is not a number |
| Shell.CreateForwardWrongCount | ovcli/shell.py:145-147 | any other token count gives the usage message |
| Shell.BareCreateForwardIsUsage | ovcli/shell.py:144-147 | the bare keyword is a usage error |
| Shell.VmStepCreatesForward | ovcli/shell.py:143-158 | a parsed line calls `create_forward` with the owning cloudspace, the machine's name and the parsed ports |
| Shell.Transition | ovcli/shell.py:49-320 | every transition keeps all but the top component, and moves the stack by at most one level or resets it to one component |
| Shell.Step | ovcli/shell.py:345-358 | a line is refused, with one of the two validation messages, iff the top component's validate rejects it; otherwise the transition runs |
| Shell.Suggest | ovcli/shell.py:333-343 | a candidate is suggested iff it is truthy and contains the typed text; every suggestion replaces the whole typed text |
| Shell.LiveCompletions | ovcli/shell.py:333-343 | the top component's truthy candidates that contain the typed text, and no others |
| Shell.SubstringCompletion | ovcli/shell.py:342 | any piece of a candidate's text, not only a prefix, brings that candidate up |
| Shell.FragmentsShape | ovcli/shell.py:352-355 | the fragments alternate each component's message with the `/` separator |
| Shell.Breadcrumb | ovcli/shell.py:356 | the prompt has two fragments per component and ends with ` > ` |
| Shell.BreadcrumbShape | ovcli/shell.py:348-356 | the prompt shows each component's styled label, separated by `/` |
| Shell.PromptText | ovcli/shell.py:348-356 | the prompt reads as the labels joined with `/`, followed by ` > ` |
| Navigation.WellFormedShape | ovcli/shell.py:158 | a well-formed stack has at most six levels; with a machine on top, `components[3]` is the cloudspace whose machine list lies below it |
| Navigation.InitialWellFormed | ovcli/shell.py:331 | the shell starts from a well-formed stack holding only the root |
| Navigation.TransitionPreservesWellFormed | ovcli/shell.py:42-323 | every component's transition keeps the stack a path from the root, so it is never emptied |
| Navigation.NavigationTokens | ovcli/shell.py:49-55 | below the root, `..` removes exactly the top and `/` keeps only the bottom; neither calls the client |
| Navigation.RootOnlyPushesEnvironments | ovcli/shell.py:318-320 | the root pushes an environment iff the line names one, and otherwise stays put |
| Navigation.DeleteNeedsConfirmation | ovcli/shell.py:104-139 | a confirmed delete pops one level and calls `delete_cloudspace` with the shown cloudspace or `delete_vm_by_id` with the shown machine's id; a declined one changes nothing |
| Navigation.ForwardDeleteKeepsState | ovcli/shell.py:234-238 | `delete <port>` on the forward list never moves the stack or refreshes the cached forwards; it deletes iff the port is a number and the dialog is confirmed |
| Navigation.CreateForwardNeverReachesClient | ovcli/shell.py:143-158 | on a machine, any createforward line with arguments is refused, and the bare one is a usage error |
| Navigation.CreateForwardTargetsOwningCloudSpace | ovcli/shell.py:158 | if `createforward <port>` were let through, it would create the forward in the cloudspace owning the machine list, for private port `<port>` with no public port |
| Navigation.OnlyMachinesCreateForwards | ovcli/shell.py:143-158 | only a machine's createforward line can create a forward or fault on the owning cloudspace lookup |
| Navigation.StepCallsSafely | ovcli/shell.py:143-158 | from a well-formed stack, no accepted line creates a forward or faults |
| Navigation.CreateNameMustBeListed | ovcli/shell.py:200-204 | the name typed at "Name: " passes the list's validator only if it is already listed, empty, a menu word, or a navigation token |
| Navigation.OfferedIsAccepted | ovcli/shell.py:60-71 | any bare string a completer offers passes the default validator |
| Navigation.OfferedCloudSpaceOpens | ovcli/shell.py:188-209 | entering a cloudspace name the list offers opens a cloudspace of that name from the list, one level up, without a client call |
| Navigation.OfferedVmOpens | ovcli/shell.py:261-283 | entering a machine name the list offers opens a machine of that name from the list, one level up, without a client call |
| Navigation.OpenedChildIsLabelled | ovcli/shell.py:82-286 | a step that opens a child without a client call was typed as that child's label |
| Navigation.Run | ovcli/shell.py:348-358 | the read loop keeps the stack well-formed, between one and six levels, and never creates a forward or faults |
| Scenarios.BrowseToRunningMachine | ovcli/shell.py:78-175 | prod, cloudspace, alpha, vm, web1 are each accepted and lead to a well-formed stack whose completions are stop, reboot, pause, createforward, print, delete |
| Scenarios.StopRefusedWhenHalted | ovcli/shell.py:168-169 | a halted machine refuses `stop` as an invalid action |
| Scenarios.DeclinedForwardDelete | ovcli/shell.py:234-238 | a declined `delete <port>` on the forward list is accepted, makes no call, and keeps the state |

## Left out

- HTTP traffic and the session: every request, `raise_for_status`, and the listing,
  printing and delete endpoints. The model reports the call a step would make
  and takes fetched data as inputs.
- JWT handling (`is_jwt_expired`, `get_jwt`), reading and writing the config file,
  and the `select_*` helpers of the client that only wrap `select_item` around a request.
- The decoding done by `urlsafe_b64decode`: only the padding step before it is modelled.
- The `fzf`, `which` and `ssh` processes. Whether `which fzf` succeeds and what fzf
  prints are inputs to `Utils.SelectItem`. The ssh session is not modelled, only its command.
- `input()` at the numbered prompt: the answers are a sequence, and running out of
  them stands for end of input.
- prompt_toolkit: rendering, colours and completion styles. A candidate keeps only its
  kind (plain, menu, action, destructive).
- `yes_no_dialog`: a boolean input.
- YAML printing and the `/tmp` log.
- `document.current_line_before_cursor` is taken to be the whole entered line.
  Completion is modelled for the text typed so far.
- `str.isdigit()` is modelled for the ASCII digits only. Python also accepts other
  Unicode digit characters.
- `ovcli/ovcli.py` is an older copy of the utilities and the client, and it is not
  part of this model. Neither are the argument parsers, `__main__.py` and `setup.py`.
- The collaborator methods the shell calls but the client does not define or does
  not return from usefully. Their results are inputs in the model:
  - `list_nodes`, `set_environment`, `set_node`, `vm_action`, `delete_vm_by_id` and the `print_*` methods;
    the console's `Shell.ConnectNode` call stands for `set_node` followed by `connect_node`;
  - `list_cloudspaces`, `list_vms` and `list_forwards`, which print and return `None`;
  - `create_machine`, whose result the machine list pushes.
  With the client as written, iterating over these `None` lists would raise.
- Components.Label: an environment's label is the last dot-separated part of the
  name it was opened with. This assumes `set_environment` stores its argument as
  `client.environment`, which the label reads.
- Client.CreateForwardRequest: takes the machine record as given. In the source,
  `select_vm` names its parameter `cloudspaace` and then reads `cloudspace`, so the
  lookup raises `NameError` before any request is built.
- Client.CloudSpacePayload: takes the account id, the login and the location codes as
  given. They come from `select_account`, `whoami` and the location list.
- Navigation.Run: a run ends when the input lines do, where the source loops until
  end of input or an interrupt ends the program.
