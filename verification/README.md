# Verified model of the pyscripts platform core

A Dafny model of the parts of pyscripts whose correctness depends on state that
lives across many calls, with proofs over all inputs, all runs and all
interleavings.

* **Contract evolution** (`Names`, `Numbering`, `NumberingFacts`, `Messages`, `Scalars`,
  `MessageTable`, `Generation`, `Generator`, `MessageFacts`, `EndpointFacts`, `Ownership`,
  `Symbols`, `Buildable`, `GeneratorFacts`, `FirstPublication`, `Refusals`,
  `Evolution`, `Regeneration`, `History`, `SwapBack`, `Wire`).
  A publication turns the endpoint schemas of a service into protobuf messages,
  numbers their fields against the previously compiled descriptor, decides
  whether the step is breaking, chooses the version, and registers the result in
  the service's contract table. `MessageShape`, `Builder` and `GenerateContract`
  follow the source step by step and are proved against the specification
  functions; the theorems are about whole histories of publications: a field
  number of a fully qualified message never changes its meaning, contracts of
  one major version read each other's bytes, a step is reported as breaking
  exactly when something was lost, regenerating changes nothing. Which interfaces
  a first publication accepts is decided from the endpoints alone
  (`BuildsExactly`, `FirstPublicationExactly`); the numbers that a step gives are those of
  the one message that keeps what it can and fills the numbers above in name order
  (`NumberingIsUnique`); and the table holds exactly the contracts that its publications
  were accepted with (`RunHoldsAccepted`).
* **Bounded log capture** (`Utf8`, `Chunking`, `Capture`). UTF-8 as in section 3 of
  RFC 3629, over Unicode scalar values, and the buffer that cuts, splits and
  flushes what an invocation prints. The specification is a fold over the
  writes; the buffer is a class proved to hold exactly that fold, in
  the one way of cutting it into chunks that lines and the chunk size leave
  (`ChunkingIsUnique`).
* **IO actor pools** (`Admission`, `Reclaim`, `Progress`, `Autoscale`). The lease state
  machine of one actor, the drain-status-kill protocol of reapers and
  retirements interleaved with every other caller, and the sizing arithmetic
  (over `real`).
* **Activation and routing** (`Activation`, `Deployment`, `Routes`, `RuntimeLabels`,
  `RuntimeLifecycle`). Services and revisions, the routing table rebuilt from them, and runtime labels with
  their versions and bindings. A repository method is one transaction.
* **Descriptor pools** (`DescriptorPool`). The worklist that adds descriptor
  files after their imports.

`Prelude` and `Graphs` hold shared data types and reachability.

Five properties do not hold without a condition. Each is stated as an
equivalence with a condition on the inputs, and shown to fail at concrete ones:

* A generated contract need not compile. protoc's rules, as listed under
  "Left out", accept it exactly when no gRPC endpoint has a Struct response without
  properties, no two fields of a message share a JSON name, no derived message is
  called like the service, and no method is called like the request or response
  message of a method, which hides that message from its rpc (`CompilesExactly`).
  Inputs that miss one of the four are `EmptyAfterAnother`, `SameJsonName`,
  `ServiceNamesake` and `MethodNamesake`.
* A Struct response without properties leaves the local `response` unbound, or bound
  to the response of an earlier endpoint. Generation raises on it exactly when this
  happens in the first gRPC endpoint and the schemas of that endpoint can otherwise be
  built (`UnboundExactly`, `GenerationRaisesExactly`, `EmptyAlone`); later on, the
  earlier response gets two fields `execution`.
* Swapping two endpoints and swapping them back is refused by registration
  (`SwapBackIsRefused`). Refusal happens exactly when the new schema is the
  latest one with its methods put back into an order some older contract has
  (`RefusesExactlyOldOrders`).
* A retirement whose drain call fails can kill an actor that has taken a lease
  since (`LostDrainKillsLease`). The kill is safe exactly when the actor is both
  closed and empty (`KillIsSafeExactly`), which holds whenever every drain call
  arrives (`NoLeaseIsKilled`).
* Local descriptor files are accepted exactly when all imports are to be found, their
  imports have no cycle, and none differs from a default file of its name that the
  external imports bring in (`LoadFiles`). That a cycle is reported as unresolved, and
  that each file is handed to the pool once, hold if no default file so reached carries
  the name of a local one (`CycleIsLocal`, `AddedOnceExactly`). Otherwise a file can be
  handed over twice (`AddsTwice`), another one of its name is refused (`RefusesOther`),
  and that refusal can come before the report of a cycle (`HidesCycle`).

Recording a failed validation of a runtime version has no guard either; it keeps
labels and versions in step exactly when the version is not active
(`FailKeepsExactly`).

## Model

| member | source | states |
|---|---|---|
| Names.BeforeTotal | src/pyscripts/contracts/generator.py:164-164 | The order used for sorted property names is total and irreflexive |
| Names.BeforeTransitive | src/pyscripts/contracts/generator.py:164-164 | That order is transitive, so a set of names has one sorted list |
| Names.LowerExactly | src/pyscripts/contracts/generator.py:627-627 | The lower-case letters written out |
| Names.RaisedExactly | src/pyscripts/contracts/generator.py:630-630 | A lower-case letter is raised to the upper-case letter at its place, and nothing else is |
| Names.UpperExactly | src/pyscripts/contracts/generator.py:627-627 | The upper-case letters written out |
| Names.DigitsExactly | src/pyscripts/contracts/generator.py:627-631 | The digits written out |
| Names.Pascal | src/pyscripts/contracts/generator.py:626-633 | A derived name has exactly the letters and digits of its source in order, case aside, after an N if the first is a digit; it starts with an upper-case letter; there is none exactly if the source has no letter or digit |
| Names.PartsAreJoined | src/pyscripts/contracts/generator.py:627-630 | The parts between separators are derived separately and joined |
| Names.PartIsCapitalised | src/pyscripts/contracts/generator.py:630-630 | A part is kept as it is but for its first letter, which is raised |
| Names.Sorted | src/pyscripts/contracts/generator.py:164-164 | Exactly the given names, each once, in strictly increasing order |
| Numbering.NumberFromSound | src/pyscripts/contracts/generator.py:513-525 | Numbering keeps numbered fields, gives the others legal numbers from the start value on, strictly increasing in list order |
| Numbering.ExhaustedExactly | src/pyscripts/contracts/generator.py:515-525 | Numbering fails exactly when the last number needed, with 19000-19999 left out, exceeds 536870911 |
| Numbering.FirstNumberedExactly | src/pyscripts/contracts/generator.py:513-525 | Without a previous message, numbering succeeds if and only if there are at most 536869911 fields |
| Numbering.SortKeeps | src/pyscripts/contracts/generator.py:516-516 | Sorting by name is ordered and a permutation |
| Numbering.AssignedIsWellNumbered | src/pyscripts/contracts/generator.py:479-531 | The numbered message has distinct, legal numbers, and neither its numbers nor its names are reserved |
| Numbering.AssignedRetains | src/pyscripts/contracts/generator.py:479-531 | Every earlier binding is kept or its number reserved, removed names are reserved, reservations stay, and every new number is above all earlier ones |
| Numbering.BreaksExactly | src/pyscripts/contracts/generator.py:497-531 | The step reports a breaking change if and only if a previous field lost its binding or an existing request message gained a field |
| Numbering.UnbrokenExtends | src/pyscripts/contracts/generator.py:497-531 | A step that is not breaking keeps every field and leaves both reserved sets as they were |
| Numbering.AssignedAgain | src/pyscripts/contracts/generator.py:479-531 | A message that already has the desired fields is compiled to exactly itself, without a breaking change |
| Numbering.AssignedKeepsClashes | src/pyscripts/contracts/generator.py:479-531 | Numbering never hides a duplicate field name |
| Numbering.RetainsTransitive | src/pyscripts/contracts/generator.py:497-531 | What one step retains, a series of steps retains |
| Numbering.RetainedNumberIsStable | src/pyscripts/contracts/generator.py:497-531 | A number bound in an earlier and in a later message is bound to the same field |
| NumberingFacts.AssignedIsNumbering | src/pyscripts/contracts/generator.py:479-531 | The compiled message has exactly the wanted fields; a previous field that is unchanged keeps its number; the others get, in name order and without a gap, the legal numbers above everything taken before; exactly what was lost is reserved |
| NumberingFacts.NumberingIsUnique | src/pyscripts/contracts/generator.py:479-531 | There is only one such message |
| NumberingFacts.AssignedExactly | src/pyscripts/contracts/generator.py:479-531 | The assignment succeeds if and only if there is one, with no wanted name reserved before |
| NumberingFacts.FreshInNameOrder | src/pyscripts/contracts/generator.py:513-525 | Of two newly numbered fields the one that is first by name has the smaller number |
| NumberingFacts.FreshAreDense | src/pyscripts/contracts/generator.py:513-525 | A legal number above all that were taken and below a newly given one is newly given too |
| Numbering.MessageShape.AssignNumbers | src/pyscripts/contracts/generator.py:479-531 | The procedure leaves exactly the specified fields and reserved sets, fails exactly when the specification has no value, and returns the breaking flag |
| Numbering.MessageShape.CarryNumbers | src/pyscripts/contracts/generator.py:497-504 | Unchanged fields get their old numbers, retyped ones have them reserved and are reported |
| Numbering.MessageShape.NumberInOrder | src/pyscripts/contracts/generator.py:513-527 | The loop numbers the list as specified and fails exactly when the field space is used up |
| MessageFacts.PlatformKeeps | src/pyscripts/contracts/generator.py:397-476 | A platform message is declared once with its fixed fields and nothing else changes |
| MessageFacts.AddFieldKeeps | src/pyscripts/contracts/generator.py:328-387 | One property leaves every existing message unchanged and adds only messages for its own path |
| MessageFacts.AddPropertiesKeeps | src/pyscripts/contracts/generator.py:164-175 | The owner gains one field per property, in sorted order, and no other existing message changes |
| MessageFacts.AddFieldAdds | src/pyscripts/contracts/generator.py:328-387 | Every added message is reachable from the field's type, and every type used exists |
| Scalars.ScalarsAreOffered | src/pyscripts/contracts/generator.py:21-41 | Every scalar type of protobuf is offered under its own capitalised name |
| Scalars.ScalarsExactly | src/pyscripts/contracts/generator.py:21-41 | Beside them there are only the four names of the platform, with their types, and no scalar that protobuf lacks |
| EndpointFacts.EndpointStep | src/pyscripts/contracts/generator.py:142-230 | One endpoint keeps the table sound and reachable from its methods; field names clash exactly after an empty Struct response |
| EndpointFacts.LoopKeeps | src/pyscripts/contracts/generator.py:142-230 | The loop over endpoints keeps all of this and lists the methods in endpoint order |
| EndpointFacts.BuildSound | src/pyscripts/contracts/generator.py:139-230 | A finished table is sound, and it has no duplicate field name if and only if no response is an empty Struct |
| EndpointFacts.OneExecutionPerResponse | src/pyscripts/contracts/generator.py:228-229 | Without empty Struct responses each response message has exactly one field `execution` |
| Ownership.MessagesAreStructs | src/pyscripts/contracts/generator.py:142-387 | Messages and the Structs of the interface are in bijection, the roots under the names derived from their methods, each message has the direction of its path, and its fields are the properties of its Struct in key order, each with the right type and label |
| Symbols.BuiltNames | src/pyscripts/contracts/generator.py:142-387 | The messages of a table that stand for a path are exactly those whose names are derived from the schemas |
| Symbols.TableObeysExactly | src/pyscripts/contracts/generator.py:142-387 | Distinct JSON names, and enough numbers, hold in every message if and only if they hold in every Struct of the schemas, the response counting `execution` as a key |
| Symbols.TableJsonExactly | src/pyscripts/contracts/builder.py:182-186 | No message of the table has two fields with one JSON name if and only if no Struct of the schemas has two such keys, the response counting `execution` as a key |
| Buildable.FieldBuilds | src/pyscripts/contracts/generator.py:328-387 | A property becomes a field if and only if its schema is well shaped at every depth, with identifiers as keys, known types, closed Structs and no nested Lists, and the message names derived below it are free and do not meet |
| Buildable.MessagesBuild | src/pyscripts/contracts/generator.py:142-228 | The messages of an endpoint can be added if and only if its schemas can be built by themselves and their names are free |
| Buildable.BuildsExactly | src/pyscripts/contracts/generator.py:142-230 | The loop over endpoints succeeds if and only if every endpoint can be built by itself, no two derive one message name, and the first response is not empty |
| MessageTable.Builder.Message | src/pyscripts/contracts/generator.py:311-325 | A message is looked up or created under its name, and a name claimed by another path fails |
| MessageTable.Builder.SetDefault | src/pyscripts/contracts/generator.py:325-325 | The message of that name is returned, after creating an empty one only if there was none |
| MessageTable.Builder.EnsurePlatformMessage | src/pyscripts/contracts/generator.py:397-476 | The platform's fields are filled in only into an empty message |
| MessageTable.Builder.FieldFromSchema | src/pyscripts/contracts/generator.py:328-387 | The in-place recursion over a schema leaves the specified dictionaries and field, or the specified failure |
| MessageTable.Builder.AppendProperties | src/pyscripts/contracts/generator.py:164-175 | The loop over sorted properties leaves the specified dictionaries |
| MessageTable.Builder.NestedMessage | src/pyscripts/contracts/generator.py:353-374 | A nested message is declared and filled as specified |
| MessageTable.Builder.EndpointMessages | src/pyscripts/contracts/generator.py:151-228 | Request, response and execution messages of one endpoint, in that order, with the same failures |
| MessageTable.Builder.DeclareEndpoints | src/pyscripts/contracts/generator.py:142-230 | The loop leaves the specified messages and methods, including the response local that an empty Struct response leaves unbound or stale |
| Generation.SelectOverGrpc | src/pyscripts/contracts/generator.py:115-115 | The gRPC endpoints, in order |
| Generation.NumberMessages | src/pyscripts/contracts/generator.py:240-242 | Every message object is numbered in place; a breaking step of any of them is reported |
| Generation.GenerateContract | src/pyscripts/contracts/generator.py:107-308 | The whole procedure yields exactly the specified outcome |
| GeneratorFacts.CompilesExactly | src/pyscripts/contracts/builder.py:182-186 | protoc's rules accept the generated contract if and only if no gRPC endpoint has an empty Struct response, two keys of a Struct with one JSON name or a derived message named like the service, and no method is named like the request or response message of a method |
| GeneratorFacts.VisibleExactly | src/pyscripts/contracts/generator.py:606-607 | Every rpc finds its request and response types if and only if no endpoint's method name is another's followed by Request or Response |
| FirstPublication.NumberedExactly | src/pyscripts/contracts/generator.py:513-525 | All messages of a first publication are numbered if and only if no Struct has more keys than there are numbers |
| FirstPublication.GeneratedExactly | src/pyscripts/contracts/generator.py:107-308 | Without empty responses, a first contract is generated if and only if the service name yields an identifier, there are gRPC endpoints, none is hand-written, and all can be built and have room |
| FirstPublication.FirstPublicationExactly | src/pyscripts/contracts/builder.py:146-199 | A first publication yields a contract if and only if its endpoints can be generated and compile, both decided from the endpoints and the service name |
| Refusals.UnboundExactly | src/pyscripts/contracts/generator.py:176-229 | The loop over endpoints reads the unbound local if and only if the first endpoint has a Struct response without properties and its schemas and id can be built |
| Refusals.GenerationRaisesExactly | src/pyscripts/contracts/generator.py:115-229 | Generation as a whole raises on the unbound local if and only if no gRPC endpoint is hand-written and the first of them is such an endpoint |
| Refusals.EmptyAlone | src/pyscripts/contracts/generator.py:176-229 | A single endpoint with an empty Struct response raises |
| Refusals.EmptyAfterAnother | src/pyscripts/contracts/generator.py:228-229 | After another endpoint it is built, and the response of that one has two fields `execution` |
| Refusals.SameJsonName | src/pyscripts/contracts/builder.py:182-186 | Parameters user_id and userId are generated and not accepted by protoc's rules, with no empty response involved |
| Refusals.ServiceNamesake | src/pyscripts/contracts/generator.py:128-133 | Service a-request with endpoint a and a Struct parameter service: the service and a message are both ARequestService, and protoc's rules do not accept it |
| Refusals.MethodNamesake | src/pyscripts/contracts/generator.py:606-607 | Endpoints a and a-request without parameters: each schema compiles by itself, the contract is generated, and protoc's rules do not accept it |
| Refusals.ShadowIsRefused | src/pyscripts/contracts/generator.py:606-607 | The same for any two such endpoints of which the method of one is called like the request of the other |
| GeneratorFacts.CompiledIsCoherent | src/pyscripts/contracts/generator.py:534-572 | In a compiled descriptor every type resolves, every message is reachable from a method, and every response carries `execution` |
| Evolution.PreparedFacts | src/pyscripts/contracts/builder.py:146-199 | What a successful preparation leaves: messages numbered after the previous contract, the namespace of the new major, and the version kept exactly when the descriptor did not change |
| Evolution.StepRetains | src/pyscripts/contracts/generator.py:240-242 | A message in both contracts never rebinds a number or revives a reserved name |
| Evolution.StepNumbers | src/pyscripts/contracts/generator.py:240-242 | Every message of a prepared contract is that one numbering of its fields after the message it follows |
| Evolution.NothingVanishes | src/pyscripts/contracts/generator.py:240-246 | If no method and no field is lost, no message is lost, although only methods and surviving messages are checked |
| Evolution.BreakingExactly | src/pyscripts/contracts/generator.py:232-257 | The flag `breaking` is raised if and only if the namespace moved, or a method, message or field was lost, or an existing request grew, or a response was not instrumented |
| Evolution.UnbrokenIsExtension | src/pyscripts/contracts/generator.py:232-263 | A step that is not breaking keeps the package and every method, message and field with number and type, and leaves reservations alone |
| Evolution.AdditionsExplained | src/pyscripts/contracts/generator.py:232-257 | In such a step every added message is reachable from an added method or an added response field |
| Evolution.ExtendsTransitive | src/pyscripts/contracts/generator.py:232-263 | Extensions compose |
| Regeneration.SameMessagesAgain | src/pyscripts/contracts/builder.py:195-199 | Publishing the same messages again keeps numbers, reservations and package, and moves the version only if the method order moved |
| Regeneration.RegenerationIsFixedPoint | src/pyscripts/contracts/builder.py:195-199 | A generated contract, given back as the previous one with the same endpoints, is prepared again unchanged and is not breaking |
| History.PreparedSucceeds | src/pyscripts/contracts/generator.py:248-263 | A changed schema has a greater version, retains every shared message, and within the major only extends |
| History.VersionExactly | src/pyscripts/contracts/generator.py:248-263 | The first contract is 1.0.0; a changed schema gets the least version of the next major if the step is incompatible, and of the next minor if it is not |
| History.RunIsLineage | src/pyscripts/repository.py:872-936 | After any run of publications the contract table is a lineage: sound contracts, each succeeding the one before, no descriptor twice |
| History.AcceptedIsLatest | src/pyscripts/repository.py:872-936 | After an accepted publication its contract is the latest of the table, which has grown by exactly that entry if the schema changed and not at all otherwise; a refused one leaves the table alone |
| History.RunHoldsAccepted | src/pyscripts/repository.py:872-936 | A contract is in the table after a run if and only if some publication of the run was accepted with it |
| History.RunGrows | src/pyscripts/repository.py:872-936 | The table of a shorter run is the beginning of the table of a longer one |
| History.RegisterKeepsOrder | src/pyscripts/repository.py:872-936 | Whatever contract is registered, a table with increasing versions and distinct schemas stays one and then has the contract, and only one of its schema |
| History.VersionsOfRun | src/pyscripts/repository.py:902-909 | Versions strictly increase over any run and no schema recurs in the table |
| History.SameMajorExtends | src/pyscripts/contracts/generator.py:258-263 | Any two contracts of one major: the later extends the earlier |
| History.NumbersAreStable | src/pyscripts/contracts/generator.py:479-531 | Over any run a number of a fully qualified message is bound to one name, type and label |
| History.ContinuousRetains | src/pyscripts/contracts/generator.py:497-531 | A message that stays present retains everything across major versions too |
| History.NumbersAreNeverReused | src/pyscripts/contracts/generator.py:506-528 | While a message stays present, a number once bound is bound to the same field or to none |
| History.RemovedNamesStayAway | src/pyscripts/contracts/generator.py:490-511 | While a message stays present, a removed field name never returns |
| History.RefusesExactlyOldOrders | src/pyscripts/repository.py:883-909 | Registration refuses a prepared contract if and only if it is the latest schema with its methods reordered into an order an older contract has |
| History.RecurrenceIsReordering | src/pyscripts/repository.py:883-888 | An older schema can recur only as a reordering of the latest one |
| History.OrderKeptIsAccepted | src/pyscripts/repository.py:883-909 | A publication whose gRPC endpoints keep the relative order of the methods they share with the latest contract is never refused |
| SwapBack.SwapBackIsRefused | src/pyscripts/repository.py:883-888 | For every service whose name yields an identifier: publishing a-b, b-a, a-b, the third publication is prepared and refused |
| Wire.OlderReadsNewer | src/pyscripts/contracts/generator.py:506-531 | Bytes written under an extension decode under the older schema to all that it knows, recursively |
| Wire.NewerReadsOlder | src/pyscripts/contracts/generator.py:506-531 | Bytes written under the older schema decode under an extension without loss |
| Wire.SameMajorInteroperates | src/pyscripts/contracts/generator.py:258-263 | Any two contracts of one major of any run interoperate in both directions on every message the older one has |
| Utf8.RoundTrip | src/pyscripts/runtime/output.py:113-115 | Decoding undoes encoding |
| Utf8.FittingIsLongest | src/pyscripts/runtime/output.py:112-115 | The kept prefix fits the limit and every longer prefix does not |
| Utf8.DecodeOfCut | src/pyscripts/runtime/output.py:113-114 | Cutting the bytes and decoding with errors ignored yields exactly that prefix |
| Utf8.FittingIsWhole | src/pyscripts/runtime/output.py:112-116 | Nothing is cut if and only if all of it fits |
| Utf8.SplitMakesProgress | src/pyscripts/runtime/output.py:177-187 | The parts rejoin, the first is not empty, is within the limit or one character, and could not be longer |
| Chunking.ChunkingIsUnique | src/pyscripts/runtime/output.py:121-143 | A text has only one split into parts that end in their only newline, or are as long as the chunk size or the next character allows, and a rest without a newline under the chunk size |
| Chunking.ShortTextWaits | src/pyscripts/runtime/output.py:121-143 | Text without a newline under the chunk size makes no chunk |
| Capture.BudgetHolds | src/pyscripts/runtime/output.py:107-118 | For any writes the byte count is the size of the captured text, within the budget, and a cut leaves less than four bytes unused |
| Capture.TruncatedExactly | src/pyscripts/runtime/output.py:109-116 | The flag is unset if and only if the capture is all text offered, stream by stream, in order |
| Capture.FitsExactly | src/pyscripts/runtime/output.py:109-116 | Nothing is truncated if and only if the whole output fits the budget |
| Capture.CaptureNeedNotBeAPrefix | src/pyscripts/runtime/output.py:112-118 | After a cut character a later short write is still kept |
| Capture.CaptureBuffer.FlushPending | src/pyscripts/runtime/output.py:145-160 | The pending text becomes one chunk of its stream, or nothing happens when there is none |
| Capture.CaptureBuffer.Append | src/pyscripts/runtime/output.py:121-143 | The whole new state: text of the other stream becomes a chunk, and the rest is the one chunking of the text that waited with the new text, every new chunk of this stream and time |
| Capture.CaptureBuffer.SplitLines | src/pyscripts/runtime/output.py:129-135 | Every completed line becomes a chunk, each ends in its only newline, and no text is lost |
| Capture.CaptureBuffer.SplitBySize | src/pyscripts/runtime/output.py:137-143 | Splitting terminates, keeps the text, cuts a part only where the next character would not fit, and leaves less than a chunk pending |
| Capture.CaptureBuffer.WriteAt | src/pyscripts/runtime/output.py:93-119 | One write extends the fold by one step exactly when the stream is enabled and the buffer open; the chunks and the text that waits are then the only ones that lines and the chunk size allow; the caller always gets the full length |
| Capture.WrittenIsUnique | src/pyscripts/runtime/output.py:121-143 | A write leaves one state: chunks, stream, waiting text and time are determined |
| Capture.ShortWriteWaits | src/pyscripts/runtime/output.py:121-143 | A short write without a newline makes no chunk and joins the text that waits |
| Capture.SameStreamJoins | src/pyscripts/runtime/output.py:121-127 | A write of the stream that waits goes on with its text |
| Capture.OtherStreamCuts | src/pyscripts/runtime/output.py:121-127 | A write of the other stream makes the waiting text a chunk with its own stream and time, and starts afresh |
| Capture.CaptureBuffer.Close | src/pyscripts/runtime/output.py:162-165 | Closing makes what waits one more chunk and loses nothing |
| Capture.CaptureBuffer.Snapshot | src/pyscripts/runtime/output.py:167-174 | What waits becomes one more chunk; the numbered chunks are the chunks in order and hold exactly the captured text; size and flag are those of the fold |
| Capture.Replay | src/pyscripts/runtime/output.py:260-267 | Replaying offers a child's chunks to the parent in order |
| Capture.ReplayConserves | src/pyscripts/runtime/output.py:260-267 | A parent with room ends up with its own text followed by the child's, without that of stderr if it does not capture it, untruncated |
| Admission.StepKeeps | src/pyscripts/runtime/admission.py:50-161 | Every operation keeps active_io equal to the number of leases, at most max_io, idle exactly when there is none, and every grant in exactly one of finished, cancelled, expired, held |
| Admission.LeasesAreConserved | src/pyscripts/runtime/admission.py:50-161 | After any run grants = finished + cancelled + expired + held, active_io = held <= max_io, and idle_since is set exactly when nothing is held |
| Admission.FatesAreFinal | src/pyscripts/runtime/admission.py:96-111 | A lease is released at most once: once ended it is never held again and its fate stays |
| Admission.RunningNeverExpires | src/pyscripts/runtime/admission.py:146-156 | A running lease is unchanged by anything but its own finish |
| Admission.LapsesExactly | src/pyscripts/runtime/admission.py:72-161 | A granted reservation that nobody starts, finishes or cancels is held through any run exactly until some call sweeps at its grant time plus time to live or later, and has expired from then on |
| Admission.DrainedOnlyShrinks | src/pyscripts/runtime/admission.py:60-61 | After a drain nothing is granted and the held leases only shrink |
| Admission.LeaseStepExactly | src/pyscripts/runtime/admission.py:50-161 | What one operation does to one held lease: it expires, is finished or is cancelled exactly if it is stale, finished, or cancelled as a reservation; a start makes a reservation run; otherwise it stays as it is |
| Admission.GrantExactly | src/pyscripts/runtime/admission.py:50-81 | The only new lease of a step is the one asked for, if and only if the controller is open, the task is io and there is room next to the leases that are not stale; it names the request, service and revision and ends after the time to live |
| Admission.IdleExactly | src/pyscripts/runtime/admission.py:64-161 | The idle mark is unset while a lease is held, is the time of the operation that released the last one, and otherwise stays |
| Admission.LeaseNamesItsRequest | src/pyscripts/runtime/admission.py:66-81 | However a run goes on, a lease that is still held names the request, service and revision it was granted for |
| Admission.SettingsExactly | src/pyscripts/runtime/admission.py:50-161 | Capacity and time to live are fixed, and only a drain closes the controller, for good |
| Admission.AdmissionController.constructor | src/pyscripts/runtime/admission.py:37-48 | A new controller is idle and holds nothing |
| Admission.AdmissionController.TryReserve | src/pyscripts/runtime/admission.py:50-81 | A lease is granted if and only if the actor is open, the task is io, and there is room once stale reservations are gone; only an open actor rejects another task type with an error |
| Admission.AdmissionController.Start | src/pyscripts/runtime/admission.py:83-94 | Exactly a live reservation that has not expired starts, and it stops expiring |
| Admission.AdmissionController.Finish | src/pyscripts/runtime/admission.py:96-102 | Exactly a held lease is released |
| Admission.AdmissionController.CancelReservation | src/pyscripts/runtime/admission.py:104-111 | Exactly a reservation is released; a running lease is left alone |
| Admission.AdmissionController.DrainActor | src/pyscripts/runtime/admission.py:113-115 | The actor is closed and keeps its leases |
| Admission.AdmissionController.Status | src/pyscripts/runtime/admission.py:117-144 | The counts are those of the live leases; idle, saturated and draining are reported exactly when they hold |
| Admission.AdmissionController.ExpireUnlocked | src/pyscripts/runtime/admission.py:146-161 | The loop drops exactly the stale reservations and releases one unit of capacity for each |
| Reclaim.StepKeeps | src/pyscripts/runtime/directory.py:169-178 | Every event keeps: an asked actor is closed, and one seen empty stays empty |
| Reclaim.NoLeaseIsKilled | src/pyscripts/runtime/directory.py:750-789 | However callers, reapers and retirements interleave, no lease is killed if every drain call arrives |
| Reclaim.KillIsSafeExactly | src/pyscripts/runtime/directory.py:786-787 | In any reachable pool a task about to kill is safe from every continuation of the callers if and only if its target is closed and empty |
| Reclaim.LostDrainKillsLease | src/pyscripts/runtime/directory.py:752-755 | With a swallowed drain failure there is a run that kills a lease |
| Progress.RetirementCompletes | src/pyscripts/runtime/directory.py:750-798 | From any pool, a retirement of actors that hold nothing but lapsed reservations has a run to its end in which every drain arrives, after which exactly those actors are gone and every other actor and task is as before |
| Progress.ReapCompletes | src/pyscripts/runtime/directory.py:165-180 | The same for a reaper and one candidate; one that drains already is not asked again |
| Autoscale.ProfileTraffic.RecordArrival | src/pyscripts/runtime/directory.py:981-986 | The deque becomes the whole arrival history cut to the window |
| Autoscale.ProfileTraffic.RequestRate | src/pyscripts/runtime/directory.py:996-1005 | The rate is the count over the whole history divided by the window, for any mix of arrivals and queries |
| Autoscale.ProfileTraffic.TrimArrivals | src/pyscripts/runtime/directory.py:1002-1005 | Popping from the front keeps exactly the times after the cutoff |
| Autoscale.AfterIsSuffix | src/pyscripts/runtime/directory.py:1002-1005 | Of ordered times, those after a cutoff are an end of the list, cut exactly at the cutoff |
| Autoscale.ProfileTraffic.RecordDuration | src/pyscripts/runtime/directory.py:988-994 | The average moves by alpha times the distance towards the duration, at least 0.001, and never past it |
| Autoscale.ProfileTraffic.CountDesired | src/pyscripts/runtime/directory.py:1007-1038 | The wanted count follows from open actors, waiting requests and the full history, and lies in 1..maximum |
| Autoscale.ActiveIoIsOpenLoad | src/pyscripts/runtime/directory.py:1016-1020 | The load counted is that of all actors that do not drain, and of no other |
| Autoscale.HotIsLeast | src/pyscripts/runtime/directory.py:1022-1031 | The hot count is the least number of actors whose target capacity covers the predicted load |
| Autoscale.HotIsLeastCover | src/pyscripts/runtime/directory.py:1022-1031 | The hot count is the least that covers the requests in flight and waiting, and the rate times the duration |
| Autoscale.DesiredCovers | src/pyscripts/runtime/directory.py:1032-1038 | The wanted count is in 1..maximum and below the maximum its capacity covers the requests in flight and waiting and the rate times the duration |
| Autoscale.DesiredExactly | src/pyscripts/runtime/directory.py:1007-1038 | While the rate is hot or one actor does not cover the load, exactly the spares come on top of the fewest actors that do, up to the maximum; otherwise one actor is wanted |
| Autoscale.DesiredIsMonotone | src/pyscripts/runtime/directory.py:1007-1038 | More active, waiting, rate or duration never wants fewer actors |
| Autoscale.FreeReplicaExists | src/pyscripts/runtime/directory.py:564-573 | With fewer occupied replicas than the limit one is free, so the early exit is unreachable |
| Autoscale.Pool.ScheduleActorCount | src/pyscripts/runtime/directory.py:544-585 | The count becomes max(before, min(wanted, maximum)), the new replicas are distinct free numbers below the maximum, and the tasks returned are exactly the unfinished ones |
| Autoscale.Pool.FirstFree | src/pyscripts/runtime/directory.py:564-571 | The lowest free replica number, or none when all are occupied |
| Autoscale.PassKeepsDesired | src/pyscripts/runtime/directory.py:139-180 | A pass leaves at least min(actors, wanted) or none, and none only if the last one went while the profile was cold for the warm timeout; only actors seen empty again go |
| Autoscale.IdlePassConverges | src/pyscripts/runtime/directory.py:139-180 | A pool whose actors can all be reaped shrinks in one pass, taking the first visited, to the wanted count, and to none if the profile is cold and one actor is wanted or left |
| Autoscale.LastGoesExactly | src/pyscripts/runtime/directory.py:148-180 | The last actor goes if and only if it is idle for the warm timeout or drained and empty, the profile had no request for that time, and it is seen empty again |
| Autoscale.SpareGoesExactly | src/pyscripts/runtime/directory.py:148-180 | One of several goes if and only if more are left than wanted, it is idle for the hot timeout or drained and empty, and it is seen empty again |
| Autoscale.ReapedJoin | src/pyscripts/runtime/directory.py:139-180 | A pass over candidates is a pass over the first of them followed by one over the others with what is left |
| Autoscale.DescendingFalls | src/pyscripts/runtime/directory.py:139-143 | The visit order has the same candidates, each once, with falling replica numbers |
| Autoscale.Pool.ReapPass | src/pyscripts/runtime/directory.py:139-189 | The loop, from the highest replica down, removes exactly the specified replicas and counts them; it leaves at least min(actors, wanted) or none, and exactly the wanted count, or none of a cold profile that wants one, if all can be reaped |
| Activation.ActivatedKeeps | src/pyscripts/repository.py:1037-1104 | Activation keeps: one ACTIVE revision per service, which is its pointer, and disjoint gRPC names and paths among serving services |
| Activation.StartedKeeps | src/pyscripts/repository.py:1127-1167 | Starting keeps the invariant although activation of a stopped service did not check routes |
| Activation.FewerServing | src/pyscripts/repository.py:1106-1125 | Stopping services keeps the invariant |
| Activation.DeletedKeeps | src/pyscripts/repository.py:303-346 | Deleting a service with its revisions keeps the invariant |
| Activation.ServiceRepository.CreateService | src/pyscripts/repository.py:167-182 | A fresh name is registered without revisions; a taken name changes nothing |
| Activation.ServiceRepository.CreateRevision | src/pyscripts/repository.py:938-1035 | A new revision is READY and not live; gRPC endpoints need a contract |
| Activation.ServiceRepository.ActivateRevision | src/pyscripts/repository.py:1037-1104 | Succeeds exactly under the source's conditions, drains the previous revision, moves the pointer, and leaves a stopped service stopped; a refusal changes nothing |
| Activation.ServiceRepository.StopService | src/pyscripts/repository.py:1106-1125 | Exactly an active service is stopped, and keeps its revision; only an unknown service is not found |
| Activation.ServiceRepository.StartService | src/pyscripts/repository.py:1127-1167 | Exactly a stopped service with a current interface and free routes starts; its active revision is always there |
| Activation.ServiceRepository.GrpcRoutesAvailable | src/pyscripts/repository.py:1194-1235 | True if and only if no other serving service publishes one of the names or paths |
| Activation.ServiceRepository.DeleteService | src/pyscripts/repository.py:274-346 | Exactly a service that is not active and runs nothing is deleted with its revisions |
| Activation.ServiceRepository.StopServicesWithUnsupportedInterfaces | src/pyscripts/repository.py:134-165 | Exactly the serving services on an old specification are stopped, and all that still serve are current |
| Deployment.BeginsServingExactly | src/pyscripts/repository.py:1037-1167 | A service begins to serve a revision if and only if it is activated while the service is not stopped, being its own, published and not replaced, current and with its contract if it needs one, or is the pointer of a stopped service that starts with a current interface; in both cases no other serving service has a gRPC service or method in common |
| Deployment.StopsServingExactly | src/pyscripts/repository.py:134-165 | It stops serving a revision if and only if it is stopped, the interface is outdated and such services are stopped, or another revision is activated |
| Deployment.RevisionStepExactly | src/pyscripts/repository.py:1037-1104 | A revision goes only with its service; until then only its status changes, to ACTIVE when it is activated and from there to DRAINING when another one is |
| Deployment.ServiceStepExactly | src/pyscripts/repository.py:274-346 | A service goes exactly when it is deleted while not active and idle; it keeps its name, and only an activation moves its pointer |
| Deployment.NeverServesAgain | src/pyscripts/repository.py:1054-1087 | However a run goes on, a revision that drains, failed or is retired stays as it is until it is deleted, and no service serves it again |
| Deployment.StepKeeps | src/pyscripts/repository.py:134-1167 | Every call keeps the invariant of services and revisions |
| Routes.PathHasOneOwner | src/pyscripts/repository.py:1325-1349 | In every reachable database a method path belongs to at most one live endpoint |
| Routes.PathReads | src/pyscripts/grpc_gateway/registry.py:44-44 | The path of a method is read back as its service and name: the text after the last slash and the text between the first and the last |
| Routes.ReadPathIsPath | src/pyscripts/grpc_gateway/registry.py:44-44 | Every text that can be read so is the path of what is read |
| Routes.PathsDiffer | src/pyscripts/repository.py:1169-1182 | Two methods whose names hold no slash share a path if and only if they are the same |
| Routes.ActivationSwitches | src/pyscripts/repository.py:1037-1104 | An activation swaps all endpoints of its service at once, and no other service's |
| Routes.StopWithdraws | src/pyscripts/repository.py:1106-1125 | A stop withdraws exactly the endpoints of its service |
| Routes.StoppedListsNothing | src/pyscripts/repository.py:1088-1091 | A stopped service lists nothing, also after an activation |
| Routes.StartLists | src/pyscripts/repository.py:1127-1167 | A start lists exactly the endpoints of the revision the service had |
| Routes.StopUnsupportedWithdrawsNothing | src/pyscripts/repository.py:134-165 | Stopping the services on an old specification withdraws no endpoint, as theirs were not listed |
| Routes.ListActiveEndpoints | src/pyscripts/repository.py:1325-1349 | Exactly the live endpoints on current interfaces, each once, ordered by service name and endpoint id |
| Routes.GrpcRouteRegistry.Replace | src/pyscripts/grpc_gateway/registry.py:39-55 | The table is swapped for exactly the given routes, unless two targets share a path, which changes nothing and reports the first path that repeats with both services |
| Routes.GrpcRouteRegistry.Resolve | src/pyscripts/grpc_gateway/registry.py:33-34 | A path resolves to the one published target that names it, or no published target does |
| Routes.GrpcRouteRegistry.Refresh | src/pyscripts/grpc_gateway/registry.py:57-63 | Rebuilding from any reachable database never fails; the path written out from the service and method of a live endpoint resolves to that endpoint, and no other path resolves |
| RuntimeLabels.ApplyKeeps | src/pyscripts/repository.py:466-795 | Every repository method keeps: a version is ACTIVE exactly when its label points at it, and version numbers and label names are unique |
| RuntimeLabels.OneActivePerLabel | src/pyscripts/repository.py:637-739 | After any run a label has at most one ACTIVE version, the one it points at |
| RuntimeLabels.NeverActiveAgain | src/pyscripts/repository.py:637-795 | However a run continues, a failed, retiring or retired version is never ACTIVE again |
| RuntimeLabels.RetiringIsUnreferenced | src/pyscripts/repository.py:729-795 | A version enters RETIRING only in a step after which no revision refers to it |
| RuntimeLifecycle.BecomesRetiringExactly | src/pyscripts/repository.py:729-795 | A version starts retiring if and only if it is asked to while no label points at it, no revision is on it and nothing runs in its environment, or another version takes its place and every revision on it follows the label |
| RuntimeLifecycle.BecomesRetiredExactly | src/pyscripts/repository.py:754-795 | It is retired if and only if it is finalized while retiring and just as quiet |
| RuntimeLifecycle.BecomesActiveExactly | src/pyscripts/repository.py:637-739 | It becomes ACTIVE if and only if it is activated while READY and meets the stated requirements of every revision that follows its label |
| RuntimeLifecycle.BecomesReadyExactly | src/pyscripts/repository.py:598-739 | It becomes READY if and only if its validation completes, or another version takes its place and a pinned revision stays on it |
| RuntimeLifecycle.BecomesFailedExactly | src/pyscripts/repository.py:624-635 | It becomes FAILED if and only if a failed validation is recorded |
| RuntimeLifecycle.NeverValidatesAgain | src/pyscripts/repository.py:466-795 | No step gives a version back to validation |
| RuntimeLifecycle.ContentsExactly | src/pyscripts/repository.py:598-622 | Apart from its status a version changes once, when its validation completes |
| RuntimeLifecycle.LabelExactly | src/pyscripts/repository.py:713-716 | A label keeps its name, and only the activation of one of its versions moves it |
| RuntimeLifecycle.NumbersAreConsecutive | src/pyscripts/repository.py:466-500 | After any run the n versions of a label are numbered exactly 1 to n |
| RuntimeLabels.ActivationMovesTrackers | src/pyscripts/repository.py:637-739 | Activation changes nothing if any tracking revision is incompatible; otherwise every tracking revision is on the new version, under its name and number, and compatible with it, and nothing else of any binding changed |
| RuntimeLabels.FailKeepsExactly | src/pyscripts/repository.py:624-635 | Recording a failed validation keeps the invariant if and only if the version is not ACTIVE |
| RuntimeLabels.RuntimeRepository.CreateRuntimeLabel | src/pyscripts/repository.py:466-480 | A new name gets a label with version 1 under validation |
| RuntimeLabels.RuntimeRepository.CreateRuntimeVersion | src/pyscripts/repository.py:482-500 | The new number is above all numbers of the label |
| RuntimeLabels.RuntimeRepository.CompleteValidation | src/pyscripts/repository.py:598-622 | Exactly a validating version becomes READY, with the packages and digest found |
| RuntimeLabels.RuntimeRepository.FailValidation | src/pyscripts/repository.py:624-635 | Any version that exists becomes FAILED, whatever its status, and the invariant survives if and only if it was not ACTIVE |
| RuntimeLabels.RuntimeRepository.ActivateProfile | src/pyscripts/repository.py:637-739 | The validate-then-move loops have exactly the specified all-or-nothing effect; the previous version retires exactly when no revision refers to it any more; the previous version and the reference counts of both are returned |
| RuntimeLabels.RuntimeRepository.CheckTrackers | src/pyscripts/repository.py:672-693 | True if and only if every tracking revision has metadata and is compatible |
| RuntimeLabels.RuntimeRepository.MoveTrackers | src/pyscripts/repository.py:695-712 | Exactly the tracking revisions move to the version and its reference |
| RuntimeLabels.RuntimeRepository.ReferenceCount | src/pyscripts/repository.py:741-752 | The number of distinct services bound to the version |
| RuntimeLabels.RuntimeRepository.RetireProfile | src/pyscripts/repository.py:754-795 | Retires or finalizes exactly under the source's conditions; a refusal changes nothing |
| DescriptorPool.Loader.CopyDefaultDescriptor | src/pyscripts/runtime/protobuf.py:293-309 | The recursion loads exactly the file and everything it imports, each once, imports first, and fails only for an unknown file |
| DescriptorPool.Loader.Add | src/pyscripts/runtime/protobuf.py:252-252 | A file that the pool holds already is ignored, another one of its name is refused, and any other is appended |
| DescriptorPool.Loader.AddReady | src/pyscripts/runtime/protobuf.py:250-255 | A pass adds files in import order and splits the waiting files; if it adds none every one of them is blocked; it ends early only at a ready file that differs from the one in the pool |
| DescriptorPool.Loader.LoadFiles | src/pyscripts/runtime/protobuf.py:234-260 | Terminates; preloads exactly what the default pool has for the external imports; reports a missing import exactly when there is one, and then the first by name, a conflict exactly when a file that no cycle keeps waiting differs from the preloaded one, and unresolved files, exactly those whose imports lead to a cycle and in order, exactly when imports not preloaded have a cycle and there is no conflict. It accepts exactly when nothing is missing, the local files have no cycle and all agree with the preloaded ones; then every file is handed over once, after its imports, and the pool holds each once |
| DescriptorPool.OrderedHasNoCycle | src/pyscripts/runtime/protobuf.py:248-255 | A complete order with imports first rules out a cycle |
| DescriptorPool.BlockedHasCycle | src/pyscripts/runtime/protobuf.py:256-260 | A pass without progress means a cycle of imports |
| DescriptorPool.BlockedLeads | src/pyscripts/runtime/protobuf.py:256-260 | When a pass adds nothing, the imports of every waiting file lead to a cycle |
| DescriptorPool.ReadyDoesNotLead | src/pyscripts/runtime/protobuf.py:250-251 | The imports of a file that comes up for adding lead to no cycle |
| DescriptorPool.AcceptedHasNoCycle | src/pyscripts/runtime/protobuf.py:248-260 | Files that agree with the preloaded ones and have no cycle outside them have none at all |
| DescriptorPool.AddedOnceExactly | src/pyscripts/runtime/protobuf.py:242-255 | Preloading and adding in import order hands no file over twice if and only if the imports of the external files, directly or not, include no local name |
| DescriptorPool.CycleIsLocal | src/pyscripts/runtime/protobuf.py:248-260 | Under that condition on the inputs, a cycle among the files not preloaded is a cycle of the local import graph |
| DescriptorPool.AddsTwice | src/pyscripts/runtime/protobuf.py:242-255 | A default file b that imports a default x, and local files y importing b, and the same x: all is loaded, x is handed over twice and kept once |
| DescriptorPool.RefusesOther | src/pyscripts/runtime/protobuf.py:242-255 | The same with another local x is refused |
| DescriptorPool.HidesCycle | src/pyscripts/runtime/protobuf.py:248-260 | The local files x importing y and y importing x and b form a cycle and are refused for x differing, not as unresolved |

## Left out

* protoc, the protobuf runtime, SHA-256, SQL and Ray calls are taken as faithful: the compiled descriptor is determined by the rendered messages, equal canonical bytes mean equal descriptors, a repository method is one transaction, a remote call is one atomic step.
* Of protoc's rules the model has: distinct method and field names, request and response types that no method of the service hides, distinct JSON names in a message, a service name that is no message, enum or enum value, message names that are no enum or enum value, existing types, legal and distinct numbers, nothing both used and reserved.
* The rendered source text, SDK manifests, archives and endpoint metadata of a generated contract; the descriptor stands for them. The order of messages in the text follows from the table and is not compared.
* The package segment, a slug of the service's name with its immutable id, is given with the service; its normalisation is not modelled.
* Interface paths are structured values. Rendered as text they stay distinct, because endpoint ids hold no colon and accepted field names hold no dot.
* Previous descriptors that this generator did not write: theorems that need reachability assume the previous contract is one of a run. Numbering itself is proved for any well-numbered previous message.
* Digest reuse is compared per service, and the created-at order of contracts is the order of publication.
* Python dictionaries that are iterated are either maps visited in sorted key order, as the source does, or sets visited in an arbitrary order where the result does not depend on it (the loops over leases and bindings).
* The database's collation of names and ids is taken to be code-point order.
* Lone surrogates in captured text, and the locks of the buffer. A chunk size of at least 1 is assumed, as the settings enforce.
* Admission.AdmissionController.TryReserve: a lease id is assumed fresh, as a random UUID is; a lease is a value in the map, so a caller's alias of the record is not modelled.
* Reclaim.NoLeaseIsKilled: the reaper's counts and timeouts are not part of the protocol; it may pick any idle or drained candidate, which allows more runs than the source has. Reclaiming actors of older wire protocols is covered as a retirement of a single handle.
* Autoscale.Pool.ReapPass: observations are inputs, and no other task removes actors of the profile during the pass.
* Rates, durations and ceilings are real arithmetic; float rounding is not modelled.
* The choice among candidates for a reservation, the queue timeout, compute tasks and warm nodes.
* Activation.ServiceRepository.CreateService: git, tracking and webhook settings of a service; outbox events, timestamps and revisions' artifacts.
* Legacy manifests with a gRPC entry that lacks a service or method string.
* RuntimeLabels.RuntimeRepository.ActivateProfile: whether a version meets a revision's requirements is a function given to the repository (specifier and marker rules are not modelled); a publication may still bind a revision to a version that stopped being active in between, so no claim is made about later bindings.
* DescriptorPool.Loader.LoadFiles: protobuf's pool is taken to ignore a file equal to the one it holds under that name, to refuse a different one, and to accept any other file whose imports it holds; merging several descriptor sets with a check for conflicting files, and building codecs from the pool.
* HTTP handlers, authentication, tokens, storage, git, the module loader and actor threads, and the user interface.
