# pyte in Dafny

pyte is a Python facade over a C test engine. This project models the parts of it that are more than plumbing and
proves what they promise. `dafny verify dfyconfig.toml` checks everything.

| files | what they model |
|---|---|
| `Common` | options, results, bytes, white space |
| `RemoteMarshal`, `RemoteEngine`, `RemoteRunner`, `RemoteProtocol`, `RemoteSafety`, `RemoteCodec` | the remote Python session: marshalling, the engine's half, the runner's half, both over a chunked byte stream as a transition system, its theorems, and a witness that text as they assume it exists |
| `CfgNames`, `CfgTree`, `CfgEmit`, `CfgEngine`, `CfgShape`, `CfgCorrect`, `CfgAccess`, `CfgImport`, `CfgGenerate`, `CfgTheorems`, `CfgNodes`, `CfgFailures` | the Configuration Model generator as a compiler: names, the tree of nodes on the heap, the emitted classes, their execution and descriptors, exactly when a module can be imported and exactly when it means what the tree says, in terms of the blocks and of the entries, and entries for which it does not |
| `Unwind`, `UnwindTheorems`, `Configurator` | backup, transaction, borrowed_rsrc and saved blocks under the one cleanup policy: a body language with its meaning, its theorems, and the same as methods that update state |
| `JobControl`, `Jobs`, `JobRuns` | the C job objects as a set of live handles, the job, channel, filter and wrapper objects that hold them, whole tests over any number of jobs, and a tool's launch |
| `Tools` | `ToolHandle.close` and its retries |
| `Tracebacks` | the breadth-first search over exception chains |
| `ControlMessages` | packing and parsing of ancillary data in the shim |
| `Scenario`, `ScenarioTheorems` | the scenario walker |
| `Docstrings`, `DocstringTheorems` | the docstring's parameter sections |
| `Ndn`, `NdnTheorems` | packet layers, stacks and their NDN text |
| `Series` | rate series and their windows |

Classes and loops stand where the source updates state. Such a method is tied by its `ensures` to a function of the old
state, and the theorems are about that function. Where a foreign call may fail, the failure is a parameter.

## How the main results are set up

**Remote session.** A state is the engine (`_last_id`, `_buf`, `_broken`, `_dead`, the live proxies), the two channels
and the runner's table. Steps compose, send (or fail to), deliver any number of bytes, serve, take a line, time out, see
the end of the stream, raise from receive, abandon, collect any proxy not in use by a call, and print: a line of somebody
else, such as a subprocess that inherited the runner's standard output, comes between the replies. Ghost history records
which object every handle was issued for, what was sent, answered and returned. The theorems hold in every reachable
state in which no printed line was taken for the awaited reply (`spoofed`); `RemoteSafety.SpoofedByAReply` says that only
a line that reads as a reply with the id of a request can be. Pairing rests on the id check: `RemoteSafety.ReceiveErrorLeavesSessionUsable` shows that a session can go on after
a receive that raised something other than a timeout.

**Generator.** `CfgTree.BuildTree` and `CfgGenerate.Emitter` work on heap nodes with parent links and are proved equal to
functions of the entry list. Emitted classes are a small syntax; `CfgEngine` parses and runs a module in order, with names
bound by imports and earlier classes, and follows attributes through the engine's descriptors. It follows Python where a
name was taken by something else: SubObject and Collection store whatever they get, a generated class that is called in
the place of a knob class makes an object, and one called CfgObject becomes a base class. The generator does not promise
that every module it emits is right, and two conditions, both on spelling alone, say when one is.
`CfgTheorems.ModuleRuns`: it can be imported if and only if `CfgImport.Loads` holds of its blocks.
`CfgTheorems.GeneratedModuleMeansTheTree`: every chain of attributes leads where `CfgAccess.Follow` says it does in the
tree, and no other attributes are there, if and only if `CfgImport.NamesAreRight` holds, too. `CfgNodes` tells the second
from the entries.

**Blocks.** `Unwind.Run` gives a test body its meaning for every answer of the Configurator (an oracle asked call by
call). A refused restore may leave any configuration behind. Every call is recorded with the exception that was on its way
when it was made, so that cleanup_errors can be compared with what teardown calls raised, also when a handler has
swallowed other exceptions or raises the caught one again.

**Jobs.** Every C call in `JobControl.Tapi` requires that the handles it gets are live. That `Jobs` verifies is the proof
that no freed handle reaches C. The operations take objects of any jobs; `JobRuns.Test` holds any number of jobs and what
they handed out, living or dead, and applies any operations to them.

## Where the documents and the code differ

The model follows the code.

- `_recv` says that every failure marks the session broken. An exception of receive other than a timeout, and a reply
  that is not JSON, leave it usable; `RemoteEngine.BrokenWhenGivenUp` says exactly which failures mark it.
- The remote guide calls marshalling one recursive rule for both directions. The runner stashes a whole container when
  any part of it cannot cross, and a dict with the reserved key below the top crosses by value; such a value can be
  received but not sent back (`RemoteMarshal.EchoShippable`).
- `Filter.detach` says that any further use of a fully detached filter raises. Iterating over it does not: it ends at
  once, and `read_all` returns an empty string (`Jobs.Filter.ReadAll`).
- The generator's name checks cover attributes only. The entry `/agent/collection` is emitted as a class that hides the
  engine's `Collection`, and the module fails on import (`CfgFailures.ShadowedEngineClass`); `/agent/none` is emitted as
  `class None` (`CfgFailures.KeywordClass`), and a collection whose key is `ip:port` as a constructor with that parameter
  (`CfgFailures.KeyIsNoParameter`), and neither module parses. With a collection `/agent/str-knob` in front of a string
  `/agent/dir` the module can be imported, but its `dir` is an object of the generated class (`CfgFailures.ImportedAndWrong`).
- The walker says a construct has a heading only when it contains a step. A step in the header of a nested compound
  statement counts for that, although the walker never shows it (`ScenarioTheorems.HeadingOverNothing`).

## Model

| member | source | states |
|---|---|---|
| RemoteMarshal.EncodeAcceptsExactlyShippable | src/pyte/remote.py:238-253 | the engine refuses exactly foreign proxies, dicts with the reserved key at any depth and leaves JSON cannot carry |
| RemoteMarshal.RunnerSeesResolved | src/pyte/_remote_runner.py:62-70 | decoding what the engine encoded puts each proxy's object in its place and changes nothing else, or is a KeyError when a handle is unknown; the wire names exactly the proxies' handles |
| RemoteMarshal.EngineProxiesExactlyTheStashed | src/pyte/remote.py:261-264 | the engine makes a proxy exactly when the runner stashed the value, for that handle, and otherwise holds its JSON image |
| RemoteMarshal.EchoShippable | src/pyte/_remote_runner.py:41-60 | a by-value result can be sent back if and only if no dict in it holds the reserved key |
| RemoteMarshal.EchoResolves | src/pyte/_remote_runner.py:62-70 | a by-value result sent back decodes to the value it was |
| RemoteRunner.DispatchSeesTheCall | src/pyte/_remote_runner.py:73-88 | a call whose handles are all in the table is dispatched with its target, arguments and keyword arguments resolved |
| RemoteRunner.DecodedKwargs | src/pyte/remote.py:258-259 | keyword arguments keep their keys, the reserved one included, and their values decode one by one |
| RemoteEngine.RemotePython.Recv | src/pyte/remote.py:180-228 | the receive loop: first non-blank line of the buffer, more chunks until there is one, and which failures mark the session broken |
| RemoteEngine.BrokenWhenGivenUp | src/pyte/remote.py:180-228 | a receive that fails marks the session broken if and only if it fails as a broken session does, which is if and only if chunks of text without a complete non-blank line are followed by a timeout, the deadline, the end of the stream or nothing more |
| RemoteEngine.RemotePython.DoRequest | src/pyte/remote.py:267-293 | a broken session sends nothing; otherwise the next id and all queued handles go out once, and the outcome is judged by the reply's id |
| RemoteEngine.RemotePython.Collect | src/pyte/remote.py:123-130 | a collected proxy only queues its handle |
| RemoteRunner.Runner.Respond | src/pyte/_remote_runner.py:95-129 | serving one line: malformed lines answered without an id, freed handles dropped before dispatch, results stashed under the next handle |
| RemoteRunner.Runner.Serve | src/pyte/_remote_runner.py:95-129 | the serve loop answers the lines in order until shutdown, skipping blank ones |
| RemoteRunner.BlankLinesDoNothing | src/pyte/_remote_runner.py:96-99 | serving is as if blank lines were not there, in its replies and in the table |
| RemoteRunner.Runner.Encode | src/pyte/_remote_runner.py:41-60 | a stashed value takes the next handle and enters the table, any other leaves the table alone |
| RemoteProtocol.FirstLineIsFirstReply | src/pyte/remote.py:199-205 | however the stream was cut into chunks, the first complete line is the first one not consumed, a reply or somebody else's |
| RemoteCodec.LawfulCodecExists | src/pyte/_remote_runner.py:91-93 | some rendering of replies as non-blank lines reads back, so that what the session's theorems assume of JSON text can be had |
| RemoteProtocol.HeldIsNotFreed | src/pyte/_remote_runner.py:113-117 | what the request in progress uses is in the table and in no list of handles to free |
| RemoteProtocol.ServeKeys | src/pyte/_remote_runner.py:113-126 | handle by handle: serving removes what the line frees and adds what the reply refers to |
| RemoteProtocol.StepKeeps | src/pyte/remote.py:267-293 | every step of engine, channels, runner, collector and other writers keeps the whole invariant, unless it takes a foreign line for the awaited reply |
| RemoteSafety.ProxiesStayValid | src/pyte/remote.py:123-130 | in every reachable state each live proxy's handle maps to the object stored when it was issued, and no handle is proxied twice |
| RemoteSafety.IssuedOnlyGrows | src/pyte/_remote_runner.py:41-60 | over any run the record of issued handles only grows: no handle is issued again for another object |
| RemoteSafety.ArgumentsArrive | src/pyte/_remote_runner.py:113-126 | after the frees that ride on a request, every object its call uses is still there and dispatch gets the resolved call |
| RemoteSafety.TableIsAllPlaces | src/pyte/_remote_runner.py:31-39 | the table's handles are the disjoint union of live proxies, queued handles, handles in unserved requests, references in unread replies and those lost with the transport |
| RemoteSafety.NothingLeaks | src/pyte/remote.py:274-277 | without a transport failure or foreign output nothing is lost, and between requests the table holds live and queued handles only |
| RemoteSafety.RepliesArePaired | src/pyte/remote.py:278-293 | every value a request returned is the runner's answer to that very request, foreign lines on the stream or not, unless one was taken for the awaited reply |
| RemoteSafety.SpoofedByAReply | src/pyte/remote.py:278-284 | a foreign line can only be taken for a reply if it reads as one, with an id that a request had |
| RemoteSafety.OnlyTheAwaitedReplyReturns | src/pyte/remote.py:278-284 | taking a line ends the request unless the line is blank, and returns a value only if what it says carries the awaited id |
| RemoteSafety.BytesAreConserved | src/pyte/remote.py:199-228 | consumed lines and buffer are the bytes received, and with those still under way all that was written |
| RemoteSafety.BrokenIsFinal | src/pyte/remote.py:267-271 | once the session is broken nothing is sent or returned, over any further run |
| RemoteSafety.BrokenIsIdle | src/pyte/remote.py:180-228 | a broken session has no request waiting |
| RemoteSafety.ReceiveErrorLeavesSessionUsable | src/pyte/remote.py:210-220 | a run in which receive raised, the session is not broken and the next request can be sent while the old one is unserved |
| RemoteSafety.RecvIsARun | src/pyte/remote.py:180-228 | the receive loop, with the runner serving and others printing meanwhile, is a run of the transition system, so the theorems are about it |
| CfgNames.PathOfOid | src/pyte/cfg/_gen.py:161-192 | splitting a joined canonical path gives it back: different paths have different OIDs |
| CfgNames.AttrNameIsUsable | src/pyte/cfg/_gen.py:271-285 | attribute names are identifiers that avoid keywords and reserved engine names |
| CfgTree.BuildTree | src/pyte/cfg/_gen.py:161-192 | succeeds exactly for entries with one root segment; parent and child links agree, every node stands at its OID, holds the entry registered there and orders its children by first mention |
| CfgTree.EnterPath | src/pyte/cfg/_gen.py:170-190 | walking one entry's segments makes the missing nodes and links them, or finds a foreign root |
| CfgTree.EnterChild | src/pyte/cfg/_gen.py:186-188 | a further segment: the child, made if missing |
| CfgTree.AddChild | src/pyte/cfg/_gen.py:186-188 | a new child is linked both ways and last in order |
| CfgTree.Record | src/pyte/cfg/_gen.py:189-190 | the entry is stored in the node of exactly its OID |
| CfgTree.RegisteredIsLast | src/pyte/cfg/_gen.py:189-190 | a node's entry is the last one registered under its OID |
| CfgTree.EntrylessNodesArePrefixes | src/pyte/cfg/_gen.py:161-192 | nodes without an entry are the proper prefixes of registered OIDs that nothing is registered under |
| CfgTree.OrderListsChildren | src/pyte/cfg/_gen.py:161-192 | the children of a node are listed once each, and exactly those that some entry passes through |
| CfgGenerate.InitFor | src/pyte/cfg/_gen.py:390-423 | the walk up the parent links collects the constructor's parameters and OID template of the path |
| CfgGenerate.Emitter.EmitNode | src/pyte/cfg/_gen.py:453-541 | the emitter's lists, sets and maps end as the functional emission says, or it fails with the same error |
| CfgGenerate.Emitter.EmitChildren | src/pyte/cfg/_gen.py:501-529 | the loop over children gives their members in order and their classes before the parent's |
| CfgGenerate.ItemsFor | src/pyte/cfg/_gen.py:491-500 | all children in order, or those listed, or the error for one that is not a child |
| CfgGenerate.Descend | src/pyte/cfg/_gen.py:630-635 | looking up a target finds the node at its path, or nothing exactly when no entry passes through it |
| CfgGenerate.Generate | src/pyte/cfg/_gen.py:638-655 | one target from entries to module: the emission for the node at its OID, or which failure |
| CfgGenerate.EveryNodeIsReached | src/pyte/cfg/_gen.py:491-541 | every known node at or below an emitted root is reached in its tree by its own segments |
| CfgEngine.EraseChild | src/pyte/cfg/_engine.py:120-121 | composing a child OID and erasing instance names is erasing the parent and appending the segment |
| CfgImport.ExecExactly | src/pyte/cfg/_gen.py:426-541 | class statements run if and only if no assignment of theirs calls an attribute, or a class of the module in another way than with an OID |
| CfgImport.ImportsExactly | src/pyte/cfg/_gen.py:426-450 | an emitted module can be imported if and only if, besides, class names and parameters are identifiers |
| CfgCorrect.ClassIsFaithful | src/pyte/cfg/_gen.py:453-541 | the class that the blocks emitted for a node leave behind leads every chain of attributes where the tree does, and has no others, if and only if each of these blocks hides no name it uses and inherits nothing it does not assign |
| CfgCorrect.OneClass | src/pyte/cfg/_gen.py:453-541 | one class statement: faithful if and only if its block is right and the classes of its children are faithful |
| CfgCorrect.FaithfulByMembers | src/pyte/cfg/_engine.py:231-296 | a class is faithful to its node if and only if its attributes are the node's and each holds the descriptor that leads to its child |
| CfgAccess.FollowReaches | src/pyte/cfg/_engine.py:247-296 | the attributes of the nodes on a path lead, in the tree, to its end and to the composed instance OID |
| CfgAccess.FollowValue | src/pyte/cfg/_engine.py:213-229 | `value` behind them finds the node's own value exactly when it carries one |
| CfgAccess.InstanceErases | src/pyte/cfg/__init__.py:144-160 | that OID erases to the node's CM OID for all instance names without a slash |
| CfgShape.ModuleShape | src/pyte/cfg/_gen.py:426-541 | one block per class node, names pairwise distinct and recorded with their OIDs, every class a member refers to defined in an earlier block, imports exactly the engine names used |
| CfgShape.AttrsAreUsable | src/pyte/cfg/_gen.py:271-285 | in every block of an emitted module the attributes are distinct, are identifiers and avoid keywords and engine names |
| CfgTheorems.GeneratedAttrsAreUsable | src/pyte/cfg/_gen.py:271-285 | the same of every module generated from entries, with or without an include list |
| CfgNames.ClassNameIsIdentifier | src/pyte/cfg/_gen.py:242-268 | a class name is an identifier unless it is empty, starts with a digit or is False, None or True |
| CfgTheorems.RootOidErases | src/pyte/cfg/_gen.py:390-423 | the OID the root's constructor composes erases to the root's CM OID for all arguments without a slash |
| CfgTheorems.ModuleRuns | src/pyte/cfg/_gen.py:426-450 | a module generated from entries can be imported if and only if it loads: identifiers where they must be, and nothing called that cannot be called so |
| CfgTheorems.RootObjectExactly | src/pyte/cfg/_gen.py:426-541 | its root object can be made if and only if, besides, no constructor parameter hides super |
| CfgTheorems.RightNamesOfClasses | src/pyte/cfg/_gen.py:242-268 | its class names are identifiers if and only if those of the emitted nodes are not empty, do not start with a digit and are not False, None or True |
| CfgTheorems.GeneratedModuleMeansTheTree | src/pyte/cfg/_gen.py:390-541 | from entries to use, exactly: for all arguments, every chain of attributes on the root object leads to the instance OID the tree gives it, and no other attributes are there, if and only if the module's names are right and no parameter hides super |
| CfgTheorems.GeneratedModuleIsCorrect | src/pyte/cfg/_gen.py:390-541 | so with right names following the members to any emitted node gives an OID that erases to the node's CM OID, and a value there exactly when the node is registered with one |
| CfgNodes.RightNamesOfEntries | src/pyte/cfg/_gen.py:390-541 | whether the names are right is a condition on the entries: class names, the constructor's parameters, and for each child of each emitted node what earlier classes and attributes hide |
| CfgTheorems.EveryValueIsReached | src/pyte/cfg/_gen.py:390-541 | for every emitted entry with a type other than none there are steps through such a module to a value whose OID erases to that entry's OID |
| CfgFailures.ShadowedEngineClass | src/pyte/cfg/_gen.py:453-541 | from the entry `/agent/collection` a module is emitted that fails on import |
| CfgFailures.KeywordClass | src/pyte/cfg/_gen.py:242-268 | from the entry `/agent/none` a module is emitted that fails on import |
| CfgFailures.KeyIsNoParameter | src/pyte/cfg/_gen.py:390-423 | from the entry `/agent/conn` with the key `ip:port` a module is emitted that fails on import |
| CfgFailures.ImportedAndWrong | src/pyte/cfg/_gen.py:453-541 | from `/agent/str-knob`, a collection, and `/agent/dir`, a writable string, a module is emitted that can be imported and is wrong |
| UnwindTheorems.EscapingExceptionCarriesAll | src/pyte/_cleanup.py:19-73 | for every body, handlers that raise again included, and every pattern of failures: the escaping exception was raised by some call, and every exception carries in cleanup_errors exactly what teardown calls raised while it was on its way, in order |
| UnwindTheorems.NothingElseIsRaised | src/pyte/_cleanup.py:19-73 | in bodies without such handlers the cleanup_errors of the escaping exception are all exceptions raised after it, in order |
| UnwindTheorems.FinallyAttaches | src/pyte/_cleanup.py:19-73 | one cleanup keeps cleanup_errors equal to what teardown raised meanwhile |
| UnwindTheorems.BlockSettles | src/pyte/cfg/__init__.py:251-298 | once a block was entered, what it owes is attempted, once and in order, whatever fails, and the body's exception escapes as itself |
| UnwindTheorems.DebtsAreSettled | src/pyte/cfg/__init__.py:340-383 | over a whole run of nested blocks every backup taken is released once and every resource let go or grabbed is restored or given back once, most recent first |
| UnwindTheorems.ConfigurationAfter | src/pyte/cfg/__init__.py:272-298 | a raising transaction, and any backup, whose restore succeeds ends with the configuration it began with; a clean transaction keeps its body's |
| UnwindTheorems.SavedAfter | src/pyte/cfg/_engine.py:67-97 | a saved block whose put-backs all succeed leaves each named instance at its value on entry |
| UnwindTheorems.BorrowedAfter | src/pyte/cfg/__init__.py:340-383 | a borrowed_rsrc block whose two releases succeed leaves the owner's instance holding the target and the borrower's empty |
| UnwindTheorems.FinallyIsGood | src/pyte/_cleanup.py:59-73 | one cleanup: the exception on its way stays and collects the failures, or the first failure takes its place and collects the others |
| UnwindTheorems.BodyKeepsBackups | src/pyte/cfg/__init__.py:229-248 | a body never changes or releases a backup it did not take |
| Configurator.Facade.CleanupAll | src/pyte/_cleanup.py:34-73 | the loop attempts every action and attaches or raises as specified |
| Configurator.Facade.Attach | src/pyte/_cleanup.py:19-31 | failures are added after those already attached |
| Configurator.Facade.Act | src/pyte/cfg/__init__.py:122-160 | one call, as the oracle answers it: the change and no exception, or a new exception and no change but a refused restore's; it is recorded with the exception on its way |
| Configurator.Facade.Finally | src/pyte/cfg/__init__.py:264-270 | a finally clause: the body's exception goes on, or what its cleanup raised |
| Configurator.Facade.Opened | src/pyte/cfg/__init__.py:251-298 | backup and transaction blocks, with their try and finally, do what their meaning says |
| Configurator.Facade.Borrowed | src/pyte/cfg/__init__.py:340-383 | the two nested blocks of borrowed_rsrc do what their meaning says |
| Configurator.Facade.Grab | src/pyte/cfg/__init__.py:307-328 | add, and set when add raised a CfgError |
| Configurator.Facade.ReadAll | src/pyte/cfg/_engine.py:83 | the entry values are read in order until one read raises |
| Configurator.Facade.Saved | src/pyte/cfg/_engine.py:67-97 | reading the knobs in order, then the body, then writing back each one once |
| Configurator.Facade.Run | src/pyte/cfg/__init__.py:251-383 | a whole test body changes state as its meaning says |
| Jobs.Job.Destroy | src/pyte/job.py:783-833 | both sides are attempted; a failed job side leaves the job and every child as they were, a successful one leaves no object with a handle and nothing live; the factory is gone for good; which failure is raised and what it carries |
| Jobs.Job.DestroyJobOnce | src/pyte/job.py:809-824 | the job's side, once: all invalidated or nothing touched |
| Jobs.Job.DestroyFactoryOnce | src/pyte/job.py:826-831 | the factory's side: let go of before the call, freed whatever is reported |
| Jobs.Filter.Attach | src/pyte/job.py:209-220 | succeeds exactly when C takes the channel, which may be of any job, and then the filter has that one more |
| Jobs.Filter.Detach | src/pyte/job.py:222-236 | for a channel of any job: the filter loses its handle exactly when its last channel goes |
| Jobs.Filter.ReadAll | src/pyte/job.py:246-332 | the data up to as many ends of stream as channels, in order; a timeout fails it; what dead filters do |
| Jobs.Job.AttachFilter | src/pyte/job.py:338-358 | a filter is registered exactly when every call succeeded, attached to exactly the given channels |
| Jobs.Job.AllocOut | src/pyte/job.py:569-578 | both output channels at once, on first use only |
| Jobs.Job.Stdin | src/pyte/job.py:594-618 | the input channel on first use, refused once the job was started |
| Jobs.Job.Start | src/pyte/job.py:642-647 | starting needs a live job; only success marks it started |
| Jobs.Job.Restart | src/pyte/job.py:688-705 | a failed stop of a live job is ignored; then as start |
| Jobs.Job.Wrap | src/pyte/job.py:707-733 | a wrapper object exactly when the job is live and C made one |
| Jobs.Job.HandlesFor | src/pyte/job.py:338-345 | the live handles of the channels, one each, or which error |
| Jobs.Job.Register | src/pyte/job.py:350-358 | a new filter object joins those of the job |
| Jobs.Job.LetGo | src/pyte/job.py:818-824 | every object the job handed out loses its handle |
| JobControl.Tapi.DestroyJob | src/pyte/job.py:790-796 | frees the job with all that belongs to it, or nothing |
| JobControl.Tapi.DestroyFactory | src/pyte/job.py:797-801 | frees the factory, which must be live |
| JobControl.Tapi.RemoveChannel | src/pyte/job.py:222-227 | a filter that loses its last channel is freed |
| Jobs.Receive | src/pyte/job.py:361-398 | over filters of any jobs: succeeds exactly if there are some, all are usable and the call succeeds, and calls C only with live handles |
| Jobs.Poll | src/pyte/job.py:401-411 | the same over output channels, input channels and filters of any jobs |
| Jobs.InputChannel.Send | src/pyte/job.py:175-181 | sending needs the job to live, and reaches C only with a live handle |
| Jobs.Wrapper.Delete | src/pyte/job.py:460-468 | idempotent, retryable after a failure, and silent once the job is gone |
| Jobs.Create | src/pyte/job.py:513-566 | a job exactly when every step succeeded; otherwise nothing is leaked unless C refuses to destroy the job; which failure is raised, and that a failed channel allocation carries what its cleanup raised |
| JobRuns.Test.Launch | src/pyte/tools/_tool.py:126-144 | whatever setup does, to whatever jobs: a job whose setup or start fails is destroyed before the failure leaves; the failure is setup's, start's or that of the job setup destroyed, and carries exactly what the destroy raised; when that succeeds nothing of the job is live |
| JobRuns.StartOrDestroy | src/pyte/tools/_tool.py:138-143 | the end of launch: started exactly if setup did not raise and left a live job that starts; otherwise destroyed, with the failure and the attached errors told from what setup left |
| JobRuns.Test.Play | src/pyte/job.py:475-833 | over any sequence of operations on any number of jobs and their objects, living or dead, with any failures: no freed handle reaches C, every object holds a handle exactly while it is live, and no job disturbs another |
| JobRuns.Operate | src/pyte/job.py:569-833 | an operation on one job makes, changes and frees only that job's own C objects, and what it handed out stays known |
| Jobs.OnlyOfSpares | src/pyte/job.py:783-833 | what is done to one job's C objects leaves another job's alone |
| Jobs.NotCompleteAfter | src/pyte/job.py:262-266 | reading never has to go on after a silence or the last end of stream |
| Tools.ToolHandle.Close | src/pyte/tools/_tool.py:336-355 | one close: the steps it runs, the flags it leaves and what it raises |
| Tools.ToolHandle.DestroyJobOnce | src/pyte/tools/_tool.py:357-360 | destroys unless done, and is done only on success |
| Tools.ToolHandle.AfterCloseOnce | src/pyte/tools/_tool.py:362-365 | runs the hook unless done, and is done only on success |
| Tools.EachStepCompletesOnce | src/pyte/tools/_tool.py:357-365 | over any sequence of closes each step has completed once if its flag is set and never otherwise; closed means all three |
| Tools.RetryRunsTheRest | src/pyte/tools/_tool.py:336-365 | a further close attempts exactly the steps that never completed, the job's and the hook's independently |
| Tools.GoodCloseSuffices | src/pyte/tools/_tool.py:336-355 | a close in which nothing fails ends it, whatever failed before, and no later close calls anything |
| Tracebacks.RemoteTracebacks | src/pyte/_util.py:44-59 | on any finite graph, cyclic or not: the distinct non-blank tracebacks of reachable exceptions, each once, none before one that is nearer |
| Tracebacks.BallIsAll | src/pyte/_util.py:48-58 | a ball closed under cause and context is everything reachable |
| Tracebacks.Report | src/pyte/_util.py:54-56 | appending a traceback no visited exception carries keeps the list complete, distinct and ordered |
| ControlMessages.Fill | shim/pyte_shim.c:2447-2487 | the fill loop never meets a null header, never writes outside the buffer and leaves the packed form |
| ControlMessages.PackedReadsBack | shim/pyte_shim.c:2660-2732 | traversing a packed buffer gives the list that was packed, levels, types and data, empty data included |
| ControlMessages.PackedChain | shim/pyte_shim.c:2670-2672 | from any message on, the headers visited are the remaining ones and each lies in the buffer |
| ControlMessages.Count | shim/pyte_shim.c:2670-2672 | the counting pass counts the headers of the traversal |
| ControlMessages.Receive | shim/pyte_shim.c:2660-2732 | fails with ENOMEM exactly when there are messages and no room for the arrays, or none for some message, as for one whose length is below the header's; otherwise the filling pass visits as many headers as were counted, stays in its arrays and lists every message |
| ControlMessages.PackedIsReceived | shim/pyte_shim.c:2447-2732 | what the send side leaves meets the receive side's demands, and reads as the very list; there is room for all its messages exactly when there is for all data |
| ControlMessages.Transfer | shim/pyte_shim.c:2447-2732 | packing and then parsing gives the list back unchanged, or ENOMEM exactly when some data has no room |
| Scenario.Extract | src/pyte/testsinfo/steps.py:236-249 | the walker's steps and findings are those of the syntactic items played through a running count |
| Scenario.Walker.Walk | src/pyte/testsinfo/steps.py:160-163 | one pass over statements plays their items |
| Scenario.Walker.Branch | src/pyte/testsinfo/steps.py:196-214 | an if with its elifs and its else plays the items of its branches |
| Scenario.Walker.Statement | src/pyte/testsinfo/steps.py:165-181 | each kind of statement plays its items |
| Scenario.Walker.Construct | src/pyte/testsinfo/steps.py:183-194 | a body with a step gets a heading and one more level, another neither |
| Scenario.Walker.Calls | src/pyte/testsinfo/steps.py:216-233 | the calls of a simple statement, in order |
| Scenario.Walker.One | src/pyte/testsinfo/steps.py:219-233 | one call: a pop lowers the count but not below zero, a text is shown and a push then raises it, a missing text is a finding |
| ScenarioTheorems.EveryTextOnceInOrder | src/pyte/testsinfo/steps.py:216-233 | the literal step and push texts appear once each in source order if and only if none stands in a compound statement's header |
| ScenarioTheorems.HeadingsLead | src/pyte/testsinfo/steps.py:183-194 | every heading leads to a step or finding of its own body, if and only if every body that gets a heading has a step in a simple statement |
| ScenarioTheorems.HeadingOverNothing | src/pyte/testsinfo/steps.py:133-143 | a step in a nested header gives a heading with nothing under it |
| ScenarioTheorems.SpeaksIfStep | src/pyte/testsinfo/steps.py:133-143 | a body yields a text or a finding exactly when a simple statement in it has a step; without any step it yields no heading either |
| ScenarioTheorems.DepthIsBearing | src/pyte/testsinfo/steps.py:160-233 | every item, headings included, stands at depth 1 plus the step-bearing constructs around it |
| ScenarioTheorems.ElifChainIsFlat | src/pyte/testsinfo/steps.py:196-214 | all branches of an if/elif/else chain stand at one depth |
| ScenarioTheorems.PushedIsOpen | src/pyte/testsinfo/steps.py:216-233 | the clamped count is the rise of pushes over pops since their balance was lowest |
| ScenarioTheorems.ShownWithOpenGroups | src/pyte/testsinfo/steps.py:157-158 | each text is shown at its depth plus the groups open just before it |
| Docstrings.Describe | src/pyte/testsinfo/docstring.py:64-112 | the chunk loop computes the filled description |
| Docstrings.Parameters | src/pyte/testsinfo/docstring.py:115-171 | the nested index loop with its step back ends, and finds what reading each section on its own finds |
| Docstrings.ReadSection | src/pyte/testsinfo/docstring.py:145-171 | the inner loop reads exactly the blank and indented lines after a heading |
| Docstrings.ReadLine | src/pyte/testsinfo/docstring.py:146-168 | one line of a section: blank, continuation, entry or finding |
| DocstringTheorems.DescribedTwice | src/pyte/testsinfo/docstring.py:64-112 | filling a filled description changes nothing |
| DocstringTheorems.DescribedKeepsWords | src/pyte/testsinfo/docstring.py:64-112 | filling keeps the words and their order |
| DocstringTheorems.EveryLineOnce | src/pyte/testsinfo/docstring.py:145-168 | each non-blank section line opens an entry, continues one or is a finding, and counts once |
| DocstringTheorems.PrintedReadsBack | src/pyte/testsinfo/docstring.py:115-171 | any list of named descriptions, under any heading, at any indent, any further indent of their lines, and with the first line behind the colon or not, is read back filled and without a finding |
| DocstringTheorems.FilledReadsBack | src/pyte/testsinfo/docstring.py:115-171 | so filled descriptions come back as they are |
| DocstringTheorems.DescribedInline | src/pyte/testsinfo/docstring.py:100-112 | a first line behind the colon makes no difference to a description |
| DocstringTheorems.DocstringReadsBack | src/pyte/testsinfo/docstring.py:115-171 | the same from the characters of the docstring |
| DocstringTheorems.DescribedMoved | src/pyte/testsinfo/docstring.py:100-112 | a leading blank line and a deeper indent make no difference to a description |
| Ndn.Text | src/pyte/tad/dsl.py:122-137 | the loop over the table renders the layer's items, or raises the first fault |
| NdnTheorems.ScanLists | src/pyte/tad/dsl.py:122-137 | a layer renders if and only if its shown values are accepted and no two name one NDN field, and then it lists exactly these in table order |
| NdnTheorems.EveryFieldOnce | src/pyte/tad/dsl.py:122-137 | every argument shows once, in the CSAP spec or in the PDU |
| NdnTheorems.DivisionAssociates | src/pyte/tad/dsl.py:266-280 | composition with `/` is associative, in its result and in whether it raises |
| NdnTheorems.StrReads | src/pyte/tad/dsl.py:57-65 | an escaped string reads back, whatever quotes and backslashes it holds |
| NdnTheorems.EscapedFirst | src/pyte/tad/dsl.py:57-65 | the two replacements, in their order, escape character by character |
| NdnTheorems.IntReads | src/pyte/tad/dsl.py:47-54 | a decimal number reads back, and ends where it should |
| NdnTheorems.HexReads | src/pyte/tad/dsl.py:68-81 | an octet string reads back |
| NdnTheorems.TemplateReads | src/pyte/tad/dsl.py:298-303 | from a template's text its layers, values and payload are recovered |
| NdnTheorems.PatternAndSpecRead | src/pyte/tad/dsl.py:287-307 | and its layers and values from a pattern's and a CSAP spec's |
| NdnTheorems.RenderedStackReadsBack | src/pyte/tad/dsl.py:266-307 | this holds of every stack of the DSL's layers that renders |
| NdnTheorems.TemplateTellsStack | src/pyte/tad/dsl.py:287-307 | two stacks with one template have the same layers, the same PDU arguments and the same payload |
| NdnTheorems.SpecTellsStack | src/pyte/tad/dsl.py:287-307 | two stacks with one CSAP spec have the same layers and the same CSAP arguments, the kind of a socket included |
| NdnTheorems.ItemsTellArguments | src/pyte/tad/dsl.py:122-137 | a layer's items in PDU or CSAP spec tell which of its arguments were given, and their values |
| NdnTheorems.LayerTables | src/pyte/tad/dsl.py:157-248 | the six layer tables name their fields so that they can be read |
| Series.SeriesByTime | src/pyte/tools/trex/_batch_report.py:181-205 | each rate is the difference to the sample before over its time delta, the first from zero |
| Series.RatesAddUp | src/pyte/tools/trex/_batch_report.py:181-205 | rates times deltas add up to the counter at every prefix |
| Series.FiniteWhenTimeMoves | src/pyte/tools/trex/_batch_report.py:278-290 | all rates are finite exactly when every sample has a new time |
| Series.Bounds | src/pyte/tools/trex/_batch_report.py:235-261 | the bounds are always in order; each is the interval its time falls in, or clamped exactly when there is none |
| Series.PastTheEndIsEverything | src/pyte/tools/trex/_batch_report.py:247-261 | a bound after the last sample falls in no interval, so a window there is the whole series |
| Series.StatsAreRight | src/pyte/tools/trex/_batch_report.py:268-275 | extremes bound all values, mean and median; the mean is the mean; the median is the middle of a falling arrangement |
| Series.Window | src/pyte/tools/trex/_batch_report.py:207-275 | which interval is chosen; without samples none; the statistics are those of the slice's rates, if and only if every sample of the slice has a new time |

## Left out

- RemoteEngine.RemotePython.DoRequest: JSON text is a codec that renders a reply as one non-blank line and reads it back; ids, messages and tracebacks inside replies are plain fields, and numbers are an integer, or a mantissa and an exponent.
- ControlMessages.Receive: requires that a message malloc has room for lies in the buffer, as the kernel delivers it; of another one the C code reads out of bounds.
- ControlMessages.PackedReadsBack: the total size is below 2^64, beyond which the size computation would wrap.
- Series.Window: says of a slice with NaN or infinities only that it has one; what sorting and averaging make of them is not modelled.
- Tracebacks.RemoteTracebacks: says nothing about the order of tracebacks at the same distance.
- RemoteProtocol.StepKeeps: the runner's results and exceptions are arbitrary effects; shipped source, imports and attribute values are not interpreted.
- A request torn by a failed send is assumed not to parse together with the one after it; what others write to the runner's standard output comes in whole lines, not into the middle of a reply.
- RemoteSafety.RepliesArePaired: of runs in which a foreign line was taken for the awaited reply nothing is claimed from then on; nor by the other theorems about reachable states.
- Dicts with keys that are not strings, and tuples, whose keys and type JSON changes.
- Proxies passed as arguments are kept alive by their caller until the request returns; the engine has one thread, and the collector may run between any two steps.
- OIDs are made of non-empty segments of ASCII characters without quotes, backslashes and braces; object OIDs hold no colon, instance names and constructor arguments no slash.
- CfgTheorems.ModuleRuns: attributes and parameters that start with two underscores count as failing the import; Python mangles such a name or gives it a meaning of its own, which is not modelled.
- The generator's input (YAML parsing, lint, force_collection rewriting entries beforehand) and its text (docstrings, wrapping, headers): emitted classes are syntax, not characters.
- Knob conversions (`to_cfg`, `from_cfg`), access checks on writing, and CfgNode and CfgSubtree: plain calls into the Configurator.
- The up-front TypeErrors of `saved`, raised before anything is read.
- `__context__` chaining and exception notes: only cleanup_errors are modelled.
- The C job library is a set of live objects. It is assumed to refuse to attach a channel twice and to detach one that is not attached, to keep the objects of different jobs apart, and to refuse to attach a filter of one job to a channel of another.
- What job operations that only pass a live handle on (wait, stop, kill, tracing, drain, read_many, last) do with it; they are `Jobs.Job.Call` and `Jobs.Receive`. `run`, which combines the modelled ones.
- `running` and the `with` form of jobs: one cleanup of one action, as in `UnwindTheorems.FinallyIsGood`.
- A consumer of `messages` that attaches or detaches channels between two messages.
- Python's own parser: a test module is given as its statements with the calls in them.
- `objective`, and white space and word characters beyond ASCII, in docstrings.
- Arguments of NDN layers before int(), IPv4Address() and the removal of MAC separators have read them; unknown keyword arguments.
- Floating-point rounding: reals stand for floats, and any positive tolerance for the machine epsilon.
- The other thin wrappers (rpc, rcf, net, env, csap, iomux, trc), the tools' option lists and output scrapers, logging and reporting: foreign calls and flat text.
