# Verified model of the Orchard provider

The repository is a Crossplane provider: a controller that keeps a virtual machine on an
Orchard server in line with a Kubernetes custom resource, and runs a start-up script on the
machine over SSH, tunnelled through a WebSocket. This project models its stateful and its
text-producing parts in Dafny and proves what holds over all their inputs and runs.

| file | part |
|---|---|
| `Reconcile.dfy` | the custom resource and what each controller operation makes of it, as functions |
| `Controller.dfy` | the controller's operations as methods on the resource object, proved equal to those functions |
| `Runs.dfy` | one Observe in detail, and safety over runs with arbitrary answers, spec edits and lost writes |
| `Loop.dfy` | the loop around those methods, down to the commands that ran on the VM |
| `Convergence.dfy` | the drift loop against a server that stores what it is sent, over a network that fails |
| `Float32.dfy` | int32 to float32 and back, against the definition of IEEE 754-2019 |
| `Shell.dfy` | the `export` prefix and the part of the POSIX shell that reads it |
| `Session.dfy` | SSH sessions: what is opened, closed and run, on every path |
| `WsConn.dfy` | WebSocket messages as a byte stream |
| `Url.dfy`, `Base.dfy`, `Tunnel.dfy` | percent-encoding, reference resolution, base URLs as net/url takes them apart, and the two port-forward URL builders |
| `DeepCopy.dfy` | the generated deep copy of the VM parameters |
| `Api.dfy`, `Decimal.dfy`, `Wrappers.dfy` | shared values, decimal notation, optional values |

## Main results

- **The script runs at most once.** Over every run, executions equal lost status writes of
  executions plus the one step of the stored status to a terminal value
  (`Runs.ExecutionsAccounted`, `Runs.AtMostOnce`). The bound carries over to the commands on
  the VM: over any sequence of edits and reconciles the script commands are at most one plus
  the lost status writes (`Loop.ReconcileAll`). Each comes after the script was uploaded
  completely (`Session.UploadAndRunScript`) and adds exactly the resource's own environment to
  what the shell inherits (`Controller.EnvironmentReaches`); the recorded exit code is that
  command's, and a due script does run if nothing is refused
  (`Controller.External.ExecuteCloudInit`).
- **The Ready condition is exact** (`Runs.ReadyIff`, and case by case `Runs.NotRunning`,
  `Runs.RunningPlain`, `Runs.StoredVerdict`, `Runs.DueScript`), the stored verdict always stems from
  an execution that happened (`Runs.VerdictJustified`), and a repeated Observe changes
  nothing (`Runs.ObserveIdempotent`).
- **The drift loop converges** after two reconciles without a hitch, wherever they lie in a
  run of failing requests, lost writes and waiting. Creations and updates that take effect,
  and POSTs sent, are bounded by edits, vanished VMs and hitches (`Convergence.Converges`,
  `Convergence.WritesBounded`, `Convergence.QuietForever`). Quiet is what the code
  compares; the whole specification arrives exactly under `Convergence.WholeSpecIff`.
- **The printed environment reads back** if and only if it is one a shell can hold, over
  whatever the shell inherits, for any map order and anything behind it
  (`Shell.EnvironmentRoundTrip`).
- **Message boundaries do not show** in the byte stream (`WsConn.StreamConserved`), except
  for empty messages (`WsConn.EofNeedsEmptyMessage`, `WsConn.BoundariesInvisible`); and the
  stream arrives whole unless a call below fails (`WsConn.WsNetConn.ReadAll`).
- **The two URL builders agree** exactly on plain bases and names, for every base of the
  form scheme://authority/path with or without a query or fragment
  (`Tunnel.BuildersAgreeIff`); then the tunnel's is the client's with http replaced by ws
  (`Tunnel.WholeUrlsAgree`).

## Where the code falls short of what one might expect

Each is proved with its exact condition, and shown at an input where the condition alone
does not name one.

- An empty WebSocket message surfaces as end of file (`WsConn.EmptyMessageLeaksEof`,
  `WsConn.EofNeedsEmptyMessage`, `WsConn.BoundariesInvisible`).
- A VM status outside the ones the code lists leaves an old Available in place, and so does
  a VM that has vanished, without an error from Observe (`Runs.ReadyIff`;
  `Runs.StaleAvailable`).
- A stored status "running" is never left again (`Runs.RunningIffStuck`, `Runs.StuckWaits`).
- A spec change is not sent while cloud-init waits for SSH (`Convergence.WritesIff`;
  `Convergence.EditHeldBack`), nor if it leaves image, CPU and memory alone
  (`Convergence.EditDisturbsIff`, `Convergence.QuietForever`, `Convergence.WholeSpecIff`;
  `Convergence.DiskSizeNeverSent`), although the repository's README speaks of comparing
  desired and actual state. Beyond 2^24 two different numbers can look alike
  (`Float32.LimitIsTight`), if they are close to each other (`Runs.DriftIff`).
- A generation from 2^31 - 64 on does not fit int32 after rounding
  (`Float32.GenerationFits`), and the stored generations can lose their order
  (`Float32.GenerationOrderIff`, `Float32.GenerationOrderLostAtBound`).
- Environment keys that are no shell names, or values with a NUL, cannot be carried
  (`Shell.EnvironmentRoundTrip`; `Shell.HyphenatedKeyLost`).
- The tunnel URL differs from the API client's for a base with user information, a host
  net/url prints escaped, a query or fragment behind a path (the client then replaces the
  path's last segment), a trailing slash, dot segments, escapes or raw characters that need
  one, and for VMs named "." or ".." (`Tunnel.BuildersAgreeIff`;
  `Tunnel.AuthoritiesDiffer`, `Tunnel.QueryDiffers`, `Tunnel.PathsDiffer`).

## Model

| member | source | states |
|---|---|---|
| Runs.ReadyIff | internal/controller/vm/vm.go:234-345 | after a decoded 200 reply the resource is Available iff the VM runs, its address is known and the script is absent or completed, or the status is an unlisted one and it was Available before; after any other reply iff it was before |
| Runs.StaleAvailable | internal/controller/vm/vm.go:257-345 | a fresh VM seen running, and then with any unlisted status or not found, still counts as Available, without an error |
| Runs.ConditionIsVerdict | internal/controller/vm/vm.go:643-712 | the executing branch and the branches that read the stored status back set the same condition for the same stored status and message |
| Runs.OtherReply | internal/controller/vm/vm.go:234-310 | without a decoded 200 reply nothing changes, and there is no error iff there is no external name or the code is 404 |
| Runs.NotRunning | internal/controller/vm/vm.go:330-345 | creating, starting and pending give Creating, stopping and deleting give Deleting, failed and error give Unavailable, anything else leaves the condition; no script runs and cloud-init is left alone |
| Runs.RunningPlain | internal/controller/vm/vm.go:274-298 | a running VM takes the address of the reply; without any it is Creating, without a script Available |
| Runs.StoredVerdict | internal/controller/vm/vm.go:652-666 | completed shows Available, failed Unavailable with the stored message up to 1024 bytes, running Creating; nothing changes or runs |
| Runs.DueScript | internal/controller/vm/vm.go:673-712 | without SSH a due script waits as pending with an error; with SSH it runs, and exactly exit code 0 stores completed and Available, everything else failed with its message |
| Runs.RanIff | internal/controller/vm/vm.go:673-712 | the script runs iff the VM runs, has an address, the script is neither done nor marked running, and SSH is ready |
| Runs.ObserveResultIff | internal/controller/vm/vm.go:234-310 | the VM is found iff a 200 reply decodes; Observe fails iff on a network error, another code than 200 and 404, an undecodable body, or a due script kept waiting, which leaves Creating and pending and runs nothing |
| Runs.ReplyShown | internal/controller/vm/vm.go:312-328 | the resource shows what the reply says, field by field; a reply without a status empties it, other fields the reply leaves out are kept |
| Runs.ObserveFrame | internal/controller/vm/vm.go:234-310 | names and spec never change, the address only for a running VM |
| Runs.CloudInitFrame | internal/controller/vm/vm.go:643-712 | cloud-init fields change only when a due script is reached, and become terminal iff SSH was ready; only then does the script run |
| Runs.FailureMessageTells | internal/controller/vm/vm.go:689-706 | from the stored message of a failed script the kind of failure, exit code and error output can be read off |
| Runs.MessagesBounded | internal/controller/vm/vm.go:589-594 | no condition message exceeds 1024 bytes |
| Reconcile.TruncateMessage | internal/controller/vm/vm.go:588-594 | at most 1024 bytes, short messages unchanged, long ones keep their first 1021 bytes and end in three dots |
| Runs.ObserveIdempotent | internal/controller/vm/vm.go:234-310 | the same answers a second time change nothing and never run the script |
| Runs.GenerationsOrdered | internal/controller/vm/vm.go:321-328 | generations sent in order below 2^31 - 64 are stored in order, up to 2^24 exactly |
| Runs.GenerationShown | internal/controller/vm/vm.go:321-324 | a generation within int32 is stored as it was sent |
| Runs.UpToDateIff | internal/controller/vm/vm.go:549-568 | for any record: up to date iff a present image is the one asked for and present CPU and memory are the float32 nearest to those asked for |
| Runs.DriftIff | internal/controller/vm/vm.go:549-568 | whatever is absent on either side: equal image, CPU and memory never count as drift; inside 2^24 different ones always do; beyond, only numbers within the mean of their float32 quanta look alike |
| Runs.ExecutionsAccounted | internal/controller/vm/vm.go:643-712 | over every run: executions = lost status writes of executions + steps of the stored status to a terminal value |
| Runs.AtMostOnce | internal/controller/vm/vm.go:643-712 | executions never exceed one plus the lost status writes; without losses they equal the change to a terminal status |
| Runs.StatusMonotone | internal/controller/vm/vm.go:654-671 | the stored status never falls back; completed and failed stay, with their message |
| Runs.RunningIffStuck | internal/controller/vm/vm.go:663-677 | "running" is stored at the end of a run iff it was at the start, and then nothing was executed |
| Runs.StuckWaits | internal/controller/vm/vm.go:663-671 | after any run from a stored "running", a reachable VM with a script is Creating, without an error, and the script is not run |
| Runs.VerdictJustified | internal/controller/vm/vm.go:687-711 | completed implies an execution that exited with 0, failed one that did not, with exactly the stored message |
| Controller.VM.UpdateVMStatus | internal/controller/vm/vm.go:313-345 | a reply without a status empties it, other fields it lacks keep their values, the rest are replaced, and the condition follows the status except for unlisted ones |
| Controller.VM.SetCloudInitStatus | internal/controller/vm/vm.go:583-586 | exactly the two cloud-init fields change |
| Controller.External.ExecuteCloudInit | internal/controller/vm/vm.go:673-712 | the resource becomes what HandleCloudInit says for the SSH answers met; nothing stays open; the VM ran nothing more, or the probe, or the probe and the uploaded script; the script is handed over iff the probe exited with 0, and runs if nothing is refused |
| Controller.EnvironmentReaches | internal/controller/vm/vm.go:684-689 | what ran is the resource's script, complete with mode 0755, under exactly the resource's environment beside or over the inherited one, iff a shell can hold it; without one the command is the script's path |
| Controller.External.HandleCloudInitFor | internal/controller/vm/vm.go:643-671 | the same for every stored status; without a due script no command runs on the VM |
| Controller.External.ObserveVM | internal/controller/vm/vm.go:234-310 | result, error and new resource are those of Observe; all connections are closed; commands on the VM as above: none unless a due script's VM is reachable, and then all of them if nothing is refused |
| Controller.External.HandleRecord | internal/controller/vm/vm.go:262-306 | the same for a decoded record |
| Controller.External.BuildVMSpec | internal/controller/vm/vm.go:468-547 | the request body is BuildSpec of the parameters |
| Reconcile.SpecRoundTrip | internal/controller/vm/vm.go:468-547 | the body carries every parameter but the script in its own field, numbers as the nearest float32 (exactly up to 2^24), empty lists and maps as absent |
| Reconcile.SpecDetermines | internal/controller/vm/vm.go:468-547 | up to 2^24 bodies are equal iff the parameters are, but for the script and empty lists and maps beside absent ones |
| Controller.External.BuildHostDirs | internal/controller/vm/vm.go:508-526 | every host directory is converted in place and order |
| Controller.External.Create | internal/controller/vm/vm.go:347-405 | sets the external name to the resource's name, sends the built spec under it, succeeds exactly on 200, 201 and 409 |
| Controller.External.Update | internal/controller/vm/vm.go:407-433 | sends the built spec under the external name, or fails without one; succeeds exactly on 200 and 204 |
| Controller.External.Delete | internal/controller/vm/vm.go:435-460 | sends nothing without an external name; succeeds exactly then and on 200, 204 and 404 |
| Loop.ReconcileOnce | internal/controller/vm/vm.go:234-460 | one reconcile is a step of the runs above, sends a POST, PUT or DELETE exactly as Observe's result and a deletion request demand, and runs a script command on the VM only if that step counts an execution |
| Loop.ReconcileAll | internal/controller/vm/vm.go:643-712 | over any sequence of edits and reconciles, script commands on the VM are at most one (none from a terminal status) plus the lost status writes |
| Loop.ScriptCounts | internal/ssh/session.go:293-301 | every run of an uploaded script counts as a script command |
| Convergence.TookInUpToDate | internal/controller/vm/vm.go:549-568 | a record that stored the request is up to date for every int32, as both sides went through the same rounding |
| Convergence.TruthfulObserve | internal/controller/vm/vm.go:257-310 | Observe fails iff it asked and got no verdict, or a script waits; what it concludes otherwise about existence and drift is true of the server |
| Convergence.StepWrites | internal/controller/vm/vm.go:347-433 | with any request failing: each step balances creations made and possible, pays an update with an edit, a vanished VM or an initial difference, a POST with a missing name, a hitch or a vanished VM, and a PUT with an update or a hitch |
| Convergence.WritesBounded | internal/controller/vm/vm.go:347-433 | the same over every run |
| Convergence.WritesIff | internal/controller/vm/vm.go:286-305 | a PUT is sent iff the GET gave a verdict, the VM differs and no cloud-init waits for SSH; a POST iff there is no external name or the GET found nothing under it; otherwise the server stays as it is |
| Convergence.QuietStays | internal/controller/vm/vm.go:300-306 | an up-to-date loop sends no POST and no PUT, leaves every specification on the server and stays up to date, whatever fails, until an edit the comparison sees or a vanished VM |
| Convergence.QuietForever | internal/controller/vm/vm.go:300-306 | the same over every run |
| Convergence.EditDisturbsIff | internal/controller/vm/vm.go:549-568 | an edit disturbs a quiet loop iff the comparison sees it; one that leaves image, CPU and memory alone never does |
| Convergence.EditHeldBack | internal/controller/vm/vm.go:286-292 | a resource with a new image and a script waiting for SSH: the reconcile leaves the old image on the server |
| Convergence.DiskSizeNeverSent | internal/controller/vm/vm.go:549-568 | after a larger disk was asked for, no run brings the new size to the server |
| Convergence.StepDistance | internal/controller/vm/vm.go:347-433 | without edits and vanishing VMs no step leads away from quiet, and each reconcile without a hitch leads closer, from a distance of at most two |
| Convergence.Converges | internal/controller/vm/vm.go:347-433 | from any server state a run without edits and vanishing VMs is quiet (found, and equal in what the code compares) once two of its reconciles met no hitch, whatever drift, failing requests, waiting and lost writes lie between |
| Convergence.WholeSpecIff | internal/controller/vm/vm.go:347-433 | then every field the resource asks for is on the server iff at the start the record was missing, was seen to differ, or had them all |
| Convergence.StepWillMatch | internal/controller/vm/vm.go:347-433 | no step but an edit or a vanishing VM changes that condition |
| Float32.FromIntCorrect | internal/controller/vm/vm.go:473-486 | the conversion rounds to nearest, ties to even (section 4.3.1 of IEEE 754-2019) |
| Float32.RoundingUnique | internal/controller/vm/vm.go:473-486 | that definition determines the value |
| Float32.Monotone | internal/controller/vm/vm.go:473-486 | the conversion is monotone on all integers |
| Float32.ExactIffRepresentable | internal/controller/vm/vm.go:473-486 | exactly the binary32 integers are unchanged |
| Float32.ExactWithinLimit | internal/controller/vm/vm.go:473-486 | up to 2^24 the conversion is the identity |
| Float32.InjectiveWithinLimit | internal/controller/vm/vm.go:557-563 | up to 2^24 different integers stay different |
| Float32.LimitIsTight | internal/controller/vm/vm.go:557-563 | 2^24 + 1 collapses onto 2^24 |
| Float32.LookAlikesAreClose | internal/controller/vm/vm.go:557-563 | integers that collapse are at most the mean of their quanta apart |
| Float32.GenerationFits | internal/controller/vm/vm.go:321-328 | a generation fits int32 after rounding iff it is below 2^31 - 64 |
| Float32.GenerationOrder | internal/controller/vm/vm.go:321-328 | below that bound storing keeps the order, up to 2^24 the value |
| Float32.GenerationOrderIff | internal/controller/vm/vm.go:321-328 | two ordered generations are stored in order iff the later fits, or neither does, or the machine's result for the later is no smaller than the earlier |
| Float32.GenerationOrderLostAtBound | internal/controller/vm/vm.go:321-328 | every pair across the bound loses its order on machines that yield a negative number |
| Shell.QuotedReadsBack | internal/ssh/session.go:148-149 | an escaped NUL-free value between single quotes reads as that value, with any suffix behind it |
| Shell.ExportSteps | internal/ssh/session.go:293-299 | one printed export sets one variable and leaves the suffix |
| Shell.EnvironmentRoundTrip | internal/ssh/session.go:143-151 | in any map order, for both terminators, any suffix and any inherited environment, the prefix lays exactly the map over what is inherited and leaves exactly the suffix iff all keys are names and no value holds a NUL |
| Shell.HyphenatedKeyLost | internal/ssh/session.go:148-149 | the key A-B is not carried, with any value |
| Shell.BuildersAgree | internal/ssh/session.go:293-299 | from any inherited environment both builders give the same one; one leaves the script, the other the path of the uploaded file |
| Shell.AppendExports | internal/ssh/session.go:293-299 | the loop prints every entry once, in some order |
| Shell.BuildStdin | internal/ssh/session.go:143-151 | the text on standard input is the header, the exports and the script |
| Shell.BuildCommand | internal/ssh/session.go:293-299 | the command line is the exports and the script's path |
| Session.VMSession.ExecuteCommand | internal/ssh/session.go:104-133 | at most this command runs; the channel is closed; an exit code is that of the command |
| Session.VMSession.ExecuteScript | internal/ssh/session.go:136-177 | the same for /bin/bash with the script and its environment on standard input |
| Session.VMSession.EnsureSFTP | internal/ssh/session.go:180-191 | opens an SFTP client only if the session has none |
| Session.VMSession.PutFile | internal/ssh/session.go:207-226 | on success the file has the content and mode, the handle is closed in any case, other files are untouched |
| Session.VMSession.UploadFile | internal/ssh/session.go:194-227 | the same, other files untouched, the directory made if asked for, with the session's one SFTP client; it succeeds iff nothing is refused |
| Session.VMSession.CloseSession | internal/ssh/session.go:235-260 | everything the session holds is asked to close, SFTP first and the WebSocket last, and success is reported iff no close failed |
| Session.NewVMSession | internal/ssh/session.go:63-101 | a session holds its WebSocket and SSH client; a failure holds nothing |
| Session.IsSSHReady | internal/controller/vm/vm.go:628-640 | nothing stays open; `ls -al` runs iff nothing is refused; ready means that it ran and exited with 0 |
| Session.RunCloudInit | internal/ssh/session.go:264-272 | nothing stays open on any path; one command runs iff nothing is refused, a shell fed with the environment and the script, and a result is that of this command |
| Session.FedShellSees | internal/ssh/session.go:143-152 | a shell reading that input comes to hold exactly the environment beside or over the inherited one, stops on errors and has the script before it |
| Session.UploadAndRunScript | internal/ssh/session.go:276-302 | nothing stays open on any path; one command runs iff nothing is refused, when the script lies complete, with mode 0755 and closed at its path; a result is that of the command |
| Session.RunSeesEnvironment | internal/ssh/session.go:293-301 | read by a shell with any inherited variables, that command adds exactly the environment and runs the uploaded file, iff a shell can hold that environment |
| WsConn.WsNetConn.Read | internal/ssh/conn.go:55-82 | one Read is a step of the stream; the next message is opened only after the one before was read to its end; it fails only if a call below fails or everything is read |
| WsConn.WsNetConn.ReadAll | internal/ssh/conn.go:55-82 | a caller that keeps reading gets every byte of every message in order, unless a call below fails |
| WsConn.StreamConserved | internal/ssh/conn.go:55-82 | delivered bytes followed by pending bytes are the messages' concatenation, over every run |
| WsConn.SchedulesAgree | internal/ssh/conn.go:55-82 | two runs with any buffer sizes deliver the same stream as far as both got |
| WsConn.EofIffEmptyMessage | internal/ssh/conn.go:75-81 | a Read reports end of file iff it opens an empty message |
| WsConn.EofDeliversWhole | internal/ssh/conn.go:75-81 | an end of file that reaches the caller comes with a whole message, for every reader |
| WsConn.EofNeedsEmptyMessage | internal/ssh/conn.go:60-81 | whatever fails and however small the buffers are, end of file reaches the caller only if one of the opened messages was empty |
| WsConn.BoundariesInvisible | internal/ssh/conn.go:60-81 | over a run without failures and empty buffers, end of file reached the caller iff one of the opened messages was empty |
| WsConn.DrainTerminates | internal/ssh/conn.go:60-81 | Reads without failure are at most the pending bytes plus the queued messages; with non-empty messages at most the bytes |
| WsConn.DrainDelivers | internal/ssh/conn.go:60-81 | a run whose last Read found everything read has delivered all messages |
| WsConn.EmptyMessageLeaksEof | internal/ssh/conn.go:80-81 | an empty message does surface as end of file |
| Tunnel.Client.constructor | internal/clients/orchard/client.go:602-622 | the server text ends in a slash and is otherwise unchanged |
| BaseUrl.SplitOfText | internal/ssh/tunnel.go:76 | the parts of a base are found again in its text |
| BaseUrl.TextOfSplit | internal/ssh/tunnel.go:76 | and a text is its parts put together |
| BaseUrl.ServerIsSlashed | internal/clients/orchard/client.go:613-616 | on the text of a base the added slash is an empty last path segment, or goes behind the query or fragment |
| BaseUrl.SlashedParses | internal/clients/orchard/client.go:1640-1643 | the client's text is accepted iff the base is, with the same scheme and authority |
| BaseUrl.AuthorityAgrees | internal/ssh/tunnel.go:89-92 | host alone and user information with the escaped host are the same text iff the authority has only characters net/url leaves alone in a host |
| BaseUrl.PortAccepted | internal/ssh/tunnel.go:76 | a plain host with a port is accepted, as written, iff the port is made of digits |
| BaseUrl.UserAccepted | internal/clients/orchard/client.go:1640 | plain user information, with or without a password, is printed as it was written |
| BaseUrl.ControlsRefused | internal/ssh/tunnel.go:76-79 | a base with a control character before its fragment is refused |
| Tunnel.AddParameter | internal/clients/orchard/client.go:1658-1668 | printing, parsing and adding a parameter adds exactly that pair |
| Decimal.ItoaShortest | internal/ssh/tunnel.go:90-98 | numbers are printed without leading zeros, with a minus sign iff negative |
| Tunnel.NewGetVmsNamePortForwardRequest | internal/clients/orchard/client.go:1630-1689 | a server text net/url rejects is rejected; else the request URL is the printed authority, the base's encoded path resolved against the operation path, and the query |
| Tunnel.EncodedQuery | internal/clients/orchard/client.go:1655-1687 | the generated query is the text the tunnel prints |
| Tunnel.GeneratedPath | internal/clients/orchard/client.go:1645-1653 | the operation path lands behind the whole encoded base path if the slash was added to that, else in place of its last segment; its leading dot vanishes |
| Tunnel.DotsDisagree | internal/ssh/tunnel.go:87-95 | with a dot segment in the base or a dot name the paths differ: resolution never leaves a dot segment, the tunnel always does |
| Tunnel.StemAgrees | internal/ssh/tunnel.go:87-95 | the decoded base path is what the client resolves onto iff it is plain and has no slash at its end and no query or fragment behind it, or is empty |
| Url.PlainIff | internal/ssh/tunnel.go:87-95 | decoded and encoded form of a path coincide iff it has only characters that need no escape and are none |
| Tunnel.BuildersAgreeIff | internal/ssh/tunnel.go:75-102 | for every base both URLs agree up to the scheme, or are both refused, iff net/url rejects the base, or its authority has only characters left alone in a host, its path only such as need no escape and are none, no dot segment, no slash at its end and no query or fragment behind it unless empty, and the name is no dot name |
| Tunnel.WholeUrlsAgree | internal/ssh/tunnel.go:81-102 | under that condition, for an http or https base, the tunnel URL is the client's whole URL with http replaced by ws |
| Tunnel.TunnelScheme | internal/ssh/tunnel.go:81-85 | for every accepted base the URL begins with wss:// iff the scheme is https in any letter case, else with ws:// |
| Tunnel.PlainTunnel | internal/ssh/tunnel.go:87-101 | where nothing needs an escape the tunnel URL is scheme, authority, path, name, port and wait put together |
| Tunnel.AuthoritiesDiffer | internal/ssh/tunnel.go:89-92 | user information and a non-ASCII host make the URLs differ, for every target |
| Tunnel.QueryDiffers | internal/clients/orchard/client.go:613-616 | so does a query behind a path, even an empty one |
| Tunnel.PathsDiffer | internal/ssh/tunnel.go:87-95 | and so do a trailing slash, a space, an escape and a dot segment |
| Tunnel.TargetRoundTrip | internal/ssh/tunnel.go:87-101 | name, port and positive wait are recovered from the URL for every name |
| Tunnel.TunnelInjective | internal/ssh/tunnel.go:87-101 | on a fixed base distinct targets have distinct URLs |
| Url.EscapeRoundTrip | internal/ssh/tunnel.go:93 | percent-decoding an escaped name or path gives it back |
| Url.KeptTable | internal/ssh/tunnel.go:93 | which characters are left alone in a segment, a path, user information and a host (section 2.3 of RFC 3986 and net/url's additions) |
| Url.EscapedAs | internal/ssh/tunnel.go:93 | every other byte becomes a percent sign and two upper-case hexadecimal digits |
| Url.RemoveIsFold | internal/clients/orchard/client.go:1650 | the buffer rules of section 5.2.4 of RFC 3986 agree with a pass over whole segments |
| Url.RemoveDotSegmentsFixpoint | internal/clients/orchard/client.go:1650 | they keep a path exactly if it has no dot segments |
| Url.FoldIsJoin | internal/clients/orchard/client.go:1650 | a path that ends in an ordinary segment resolves to a joined path without dot segments |
| Url.DecodedHasDots | internal/ssh/tunnel.go:76-95 | decoding keeps the dot segments of a path |
| Url.InvalidSurvives | internal/clients/orchard/client.go:1650 | a character that makes a path no valid encoding is still there after decoding |
| DeepCopy.Heap.DeepCopyInto | apis/compute/v1alpha1/zz_generated.deepcopy.go:120-218 | the copy has the same value, reaches only new cells at any depth, and no existing cell changes |
| DeepCopy.Heap.CopyScript | apis/compute/v1alpha1/zz_generated.deepcopy.go:248-257 | the same for the start-up script and its environment map |
| DeepCopy.Heap.CopyDirs | apis/compute/v1alpha1/zz_generated.deepcopy.go:177-183 | the same for the host directories and their Ro cells |
| DeepCopy.Heap.CopyCell | apis/compute/v1alpha1/zz_generated.deepcopy.go:122-126 | one cell is duplicated, nil stays nil |
| DeepCopy.ValueFramed | apis/compute/v1alpha1/zz_generated.deepcopy.go:120-218 | a value depends only on the cells it reaches |
| DeepCopy.ReachesInside | apis/compute/v1alpha1/zz_generated.deepcopy.go:120-218 | growing the heap, as the copy does, keeps a value and what it reaches |
| DeepCopy.CopiesIndependent | apis/compute/v1alpha1/zz_generated.deepcopy.go:120-218 | after what DeepCopyInto ensures, writes through either side, and allocations, never show in the other |
| DeepCopy.CopyHoldsTheSame | apis/compute/v1alpha1/zz_generated.deepcopy.go:120-218 | the copy stands for the controller's parameters the original stands for, field by field, and for no others |

## Left out

- HTTP, TLS, JSON, the SSH and SFTP protocols and the WebSocket library: their answers are parameters or open choices. A message reader gives any chunk, end of file or failure the io.Reader contract allows.
- The Crossplane runtime: only that Observe's result (and a deletion request) selects Create, Update, Delete or nothing, and that a status or name write may be lost. Conditions the runtime sets by itself are not modelled. Condition timestamps and other object metadata are not modelled.
- Tunnel.BuildersAgreeIff: bases of the form scheme://authority/path, with or without user information, port, query and fragment, after net/url of Go 1.24.5 (later releases also demand an IPv6 address between brackets, for both builders alike). Texts without scheme and authority, which net/url reads as relative or opaque, are not modelled. That http.NewRequest parses the generated URL once more, and the header fields of the request, are not modelled.
- Url.RemoveDotSegmentsFixpoint: dot segments are removed by the rules of section 5.2.4 of RFC 3986; net/url also collapses an empty segment behind a ".." at the root ("/..//x" becomes "/x" there and "//x" here). Tunnel.BuildersAgreeIff does not depend on it: with a dot segment the tunnel keeps it and resolution does not.
- Tunnel.Client.constructor: options that change the server text are not modelled; the repository passes none.
- Float32: the exponent is unbounded, so an overflow to infinity (from 2^128 - 2^103 on), which the JSON decoder would reject, does not occur.
- Shell: expansions, patterns, operators and reserved words stop the modelled lexer. The printed prefix uses none. Read-only shell variables are not distinguished from others. The user's script is an opaque suffix.
- DeepCopy.Heap.DeepCopyInto: Go's heap is an explicit sequence of cells instead of Dafny objects, a slice or map is one cell, and the plain pointer fields are copied in one loop where the generated code repeats the step. The target is a new value; copying a value onto itself is not modelled.
- Controller.External.BuildVMSpec: the request shares pointers with the parameters in Go; the model is on values.
- WsConn.WsNetConn.Read: Write, the mutex, deadlines and context are not modelled; calls are sequential.
- WsConn.BoundariesInvisible: like WsConn.EofNeedsEmptyMessage, for readers that report the end of a message in a Read of its own, without bytes; the io.Reader contract also allows the end together with the last bytes, for which WsConn.EofDeliversWhole speaks.
- Credentials, provider configuration, Connect, start-up wiring, defaults of the tunnel configuration, and the remaining generated client: lookups and plumbing.
