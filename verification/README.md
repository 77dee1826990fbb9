# A model of the approval-gated kubernetes MCP server

The server takes tool calls from an agent. A call whose RBAC pairs change state, or read a sensitive kind,
is held until an operator approves it; then it runs once, on a client that can reach only the pairs the call
declared, against the state the operator saw. This project models that middle of the repository and proves
what it is for. Everything is stated for all inputs, all runs, and every behaviour of the gate, the cluster,
the other writers and the handlers.

## The parts

**The approval protocol** (`Protocol`, `ProtocolInvariant`, `ProtocolSafety`, `ProtocolTheorems`,
`ProtocolOutcomes`, `ProtocolRuns`, `ProtocolBatch`, `ProtocolGate`, `GateDecision`). A step system: any number of calls in flight on the three gate paths (`authorize`, the
create batch, the collection delete), a gate that answers with any decision, new or old, handlers that send
any request they like, and a cluster that others write to between any two steps. Versions are never used
twice. The gate is under one contract, that it hands out a decision only after the call was described;
`ProtocolGate.Ask` shows that `ApprovalGate.Client.Authorize`, asked about a call of the protocol, keeps it. The
invariant is kept by each kind of step and so by
every run; the guarantees are read off it:

- a request that needs approval, or that comes from a call the gate asks about whatever it requests (anything
  through the proxy), reaches the kubernetes service only with the pair its own call was shown, granted and has
  spent a decision for, and after its target was read again and found as shown;
- no decision backs two handler runs;
- an update or patch that takes effect takes effect over the very document shown, whoever wrote in between,
  and stores what the call asked for on that document;
- what happens between the second reading and the request is settled exactly: an update or patch takes effect
  if and only if no step touched its place and it goes through on the document shown; a plain delete removes
  the document shown if and only if no step touched its place; a collection delete removes, of the objects
  shown, exactly those at untouched places, and whatever else it removes was written in between;
- the gate is passable: a granted call that is left alone reaches its handler and its write lands, and a batch
  granted document by document creates them all.

**Write conditions** (`Json`, `JsonPatch`, `PatchSemantics`, `WriteConditions`, `Handlers`). JSON Pointer, JSON Patch and merge
patch as RFC 6901 (section 4), RFC 6902 (sections 4 and 5) and RFC 7396 (section 2) define them, and what
the rewriting of a patch or manifest does to their meaning.

**Declarations and the reason** (`Declarations`, `JsonText`, `JsonGrammar`, `ReasonSplit`, `DecodedReason`). Which pairs a call exercises,
why two probes decide for all calls whether a tool can ask for approval, and how the `reason` argument is cut
out of the argument text (RFC 8259) with everything else left as it was, which is the same as cutting it out of
the decoded members.

**Masking** (`CredentialMask`, `CredentialScreen`). What the approval screen shows of credentials: their sizes
and nothing else, as an if-and-only-if; and which places of the arguments hold one.

**The gate client, batches, records, metrics** (`ApprovalGate`, `CallRecords`, `CreateBatch`, `Dispatcher`,
`Metrics`). Imperative, on objects: one-use decisions, the polling loop, the approve-all-then-execute batch,
the one record of every call, and the counters kept from the records.

**Token caps** (`TokenCaps`, `GitHubRules`). The rules a GitHub workflow is known by, the caps they carry,
and the fitting of a request to one cap.

**Algorithms** (`CollectionSnapshot`, `SimilarKinds`, `Sorting`, `DocInventory`, `CommentLedger`). Paged
listing, two-row edit distance and ranking, reachability between documents, and the ledger of comment lines.

## Where the code and its own words part

- `internal/mcp/confine.go:174-179` says that `resource_patch` refuses a `subresource` argument. It does
  not: such a call is approved as a patch of the subresource and then stopped by its own client, after the
  approval is spent. `ProtocolRuns.PatchOfSubresourceIsStopped` is that run, and `Handlers.HandlerStaysInside`
  says exactly when a handler's request is let through.
- `internal/mcp/mcp.go:459-464` says that nothing of a refused call reached the cluster. A create batch that
  made one document and then found the service unavailable is recorded as refused:
  `CreateBatch.RefusedYetWroteExample`. `Dispatcher.Handler.ToolsCall` has the exact condition for every record;
  a service that is unavailable always or never cannot bring it about.
- A rule that lists the token tool twice collects its caps twice (`internal/auth/github_oidc.go:355-367`),
  and its callers can then leave no argument out where one of its caps fits, whatever other rules match them:
  `GitHubRules.RepeatedToolMakesOmissionsAmbiguous`, with an example in `GitHubRules.RepeatedToolExample`.
- The values of a JSON Patch whose own value has a key `data` or `stringData` are masked twice
  (`internal/mcp/gate.go:956-959`), so the size shown is that of a masked text.
  `CredentialMask.MaskedArgumentsReveal` is exact about that case too.
- Neither a plain nor a collection delete carries a precondition (`internal/mcp/gate.go:699-701` says that a
  read cannot protect the interval after it). `ProtocolRuns.DeleteTakesWhatIsThere` and
  `ProtocolRuns.CollectionTakesWhatMatches` are runs in which something nobody was shown is removed;
  `ProtocolOutcomes.DeleteRemovesTheShownExactly` and `ProtocolOutcomes.CollectionRemovesTheShownExactly` say
  exactly when that happens.

## Model

| member | source | states |
|---|---|---|
| ProtocolTheorems.NoGatedRequestWithoutApproval | internal/mcp/gate.go:602-727 | over every run, a request that needs approval, or any request of a call with a non-empty gated list (the exempt tool apart), reaches the service only with the pair its call was shown, after grant, spending and, for a declared target, a second reading equal in version and UID; in a batch after all documents were granted |
| ProtocolTheorems.NothingIsProxiedWithoutApproval | internal/mcp/gate.go:315-333 | over every run, whatever a proxy call sends, a GET included, was approved as that very pair |
| ProtocolTheorems.ApprovedPairOnly | internal/mcp/confine.go:43-110 | a gated call's client answers for the one approved pair |
| ProtocolTheorems.UngatedReachesNothingGated | internal/mcp/gate.go:315-333 | a call with no gated pair cannot reach a request that needs approval |
| GateDecision.RequestNeedsGateExactly | internal/mcp/gate.go:315-333 | a request needs approval exactly when its verb changes state or it reads or watches a listed kind, subresources included |
| GateDecision.GatedExactly | internal/mcp/gate.go:315-412 | reads and watches are held exactly when the kind is listed, lists never, changes and everything proxied always |
| GateDecision.SensitiveExactly | internal/mcp/gate.go:454-473 | for lists of any length: a pair is sensitive exactly when some entry, bare or with a group, names its resource in the singular or with an s, whatever the subresource |
| GateDecision.NeedsApprovalExactly | internal/mcp/gate.go:315-333 | which verbs need approval, by name |
| GateDecision.ToolPair | internal/mcp/gate.go:340-412 | the one pair of each tool's call, from its own apiVersion, kind, subresource or method |
| GateDecision.CreateExactly | internal/mcp/create.go:24-94 | a create call is a manifest alone, every object of which is a document, in order |
| GateDecision.DocumentExactly | internal/mcp/create.go:57-94 | when an object is a document |
| GateDecision.TargetExactly | internal/mcp/gate.go:876-898 | the target is the object the arguments name |
| ProtocolTheorems.OneDecisionOneRun | internal/approvalgate/approvalgate.go:243-252 | over every run, no decision backs two handler runs and no unit of a call runs twice |
| ProtocolTheorems.OneDecisionOneUnit | internal/mcp/mcp.go:413-437 | requests that share a decision come from the one run it paid for |
| ProtocolTheorems.WritesHitTheShownDocument | internal/mcp/resource.go:264-275 | over every run, a handler-built update or patch that takes effect does so over exactly the document shown, at the call's own place, and stores the call's manifest, replica count, merge or JSON patch worked out on that document, under a new version and the same UID |
| ProtocolTheorems.ConfirmedIsShown | internal/mcp/gate.go:699-727 | what was confirmed before a handler ran is the whole document shown, not only its version |
| ProtocolTheorems.WrittenOverNamedVersion | internal/k8s/resource.go:711-715 | a conditional write goes through only over the version it names |
| ProtocolTheorems.WrittenAsAsked | internal/k8s/patch_precondition.go:9-76 | what a conditional write stores is what the call asks for with none of the conditions: manifest, replica count, JSON or merge patch |
| ProtocolTheorems.ScaleChangesReplicasOnly | internal/k8s/resource.go:780-791 | a scale write changes the replica count and no other member |
| ProtocolOutcomes.RunAt | internal/mcp/gate.go:699-701 | over any run a place no step touches keeps its document, and one that is touched never holds it again |
| ProtocolOutcomes.DeleteRemovesTheShownExactly | internal/mcp/gate.go:699-727 | from the second reading through any steps, a plain delete removes the document shown if and only if no step wrote or removed at its place |
| ProtocolOutcomes.WriteTakesEffectExactly | internal/mcp/gate.go:699-727 | a handler-built update or patch takes effect if and only if its place was left alone and the write goes through on the document shown |
| ProtocolOutcomes.CollectionRemovesTheShownExactly | internal/mcp/delete_collection.go:130-193 | a collection delete removes, of what was shown, exactly what stands at untouched places, and beyond it only what was written since; it removes the selection shown if and only if neither holds a touched place |
| ProtocolSafety.RunKeeps | internal/mcp/mcp.go:361-437 | every state of every run satisfies the invariant, calls, answers and outside changes in any order |
| ProtocolSafety.NextKeeps | internal/mcp/mcp.go:361-437 | each kind of step keeps the invariant |
| ProtocolSafety.SendKeeps | internal/mcp/confine.go:94-110 | whatever a handler asks for, what is let through is justified and recorded over a document on record |
| ProtocolSafety.GatedIsWhole | internal/mcp/gate.go:315-358 | outside a batch a gated call has one pair, and it is all the call exercises |
| ProtocolSafety.BatchArrives | internal/mcp/create_gate.go:20-24 | each document of a batch, taken alone, exercises exactly its own create pair |
| ProtocolInvariant.PaidKeeps | internal/approvalgate/approvalgate.go:243-252 | spending keeps the invariant: no log entry spends a decision a second time |
| ProtocolInvariant.StartKeeps | internal/mcp/mcp.go:413-434 | a handler starts once, with the entries that justify it before it |
| ProtocolInvariant.RunJustified | internal/mcp/gate.go:629-665 | the entries a running call points at justify its next request |
| ProtocolInvariant.PutKeeps | internal/k8s/resource.go:729-734 | a new version goes on record and overwrites none |
| ProtocolRuns.ApprovedCallRuns | internal/mcp/gate.go:602-666 | a waiting call outside a batch, with one target, a selection or none, that is newly granted and left alone reaches its handler with evidence, the cluster unchanged |
| ProtocolRuns.ApprovedCallEntersInterval | internal/mcp/gate.go:629-665 | from every reachable state in which a call with a target waits, an approval leads through the second reading into the handler, the interval the exact results are about |
| ProtocolRuns.ApprovedWriteLands | internal/mcp/mcp.go:409-437 | and its handler's own request is then let through and does what was approved, to the object or selection shown |
| ProtocolRuns.PatchOfSubresourceIsStopped | internal/mcp/confine.go:174-179 | an approved patch that names a subresource spends its decision, starts its handler and changes nothing |
| ProtocolBatch.ApprovedBatchCreates | internal/mcp/create_gate.go:12-98 | a batch granted document by document and left alone creates every document, each on its own decision, and nothing else |
| ProtocolGate.Ask | internal/approvalgate/approvalgate.go:327-357 | the gate client, asked about a call of the protocol, answers with a decision only after the step that describes it, and sends the text of the recorded pair and view |
| ProtocolRuns.DeleteTakesWhatIsThere | internal/mcp/gate.go:699-701 | from every state with an approved delete about to run, another writer's document can be the one removed |
| ProtocolRuns.CollectionTakesWhatMatches | internal/mcp/delete_collection.go:130-193 | likewise of a collection delete, with any matching object added after the second reading |
| Protocol.Stamp | internal/k8s/resource.go:729-734 | a stored document names its own new version |
| Handlers.HandlerStaysInside | internal/mcp/confine.go:160-199 | a handler's own write is let through for all arguments, except exactly a patch that names a subresource |
| Handlers.PatchInside | internal/mcp/resource.go:379-436 | a patch request is inside its declaration if and only if no subresource is named |
| Handlers.UpdateInside | internal/mcp/resource.go:246-285 | an update or scale request is inside its declaration |
| Handlers.CreateInside | internal/mcp/create.go:112-124 | a create of one document is inside the pair it was approved as |
| Handlers.PatchBuiltExactly | internal/mcp/resource.go:379-436 | when a patch request is built and what it carries: a known type, a patch, a field manager exactly with an apply |
| Handlers.UpdateBuiltExactly | internal/mcp/resource.go:246-285 | when an update request is built: a manifest that describes the target, or a replica count for a scale |
| Handlers.DeleteBuiltExactly | internal/mcp/resource.go:530-560 | when a delete request is built, and of what |
| Handlers.CollectionBuiltExactly | internal/mcp/delete_collection.go:34-75 | when a collection delete is built, and of what: always in one namespace |
| WriteConditions.ApprovedPatch | internal/k8s/patch_precondition.go:9-76 | the loop computes the rewriting Guarded describes, refusals included; when each type is accepted is in the next rows |
| WriteConditions.JsonPatchAcceptedExactly | internal/k8s/patch_precondition.go:10-28 | a JSON Patch of any length is accepted for an approved state named in full, and goes out between two pairs of tests on its version and uid |
| WriteConditions.StrategicAcceptedExactly | internal/k8s/patch_precondition.go:29-75 | a strategic merge is accepted unless it names another state or has a directive at the root or in the metadata |
| WriteConditions.ApplyAcceptedExactly | internal/k8s/patch_precondition.go:29-75 | an apply is accepted, directives and all, unless it names another state or another object |
| WriteConditions.ManifestAcceptedExactly | internal/k8s/resource.go:688-734 | a manifest is sent when it has metadata that leaves the version open or names the approved one |
| WriteConditions.ScanDirectives | internal/k8s/patch_precondition.go:39-47 | finds a strategic directive in any order of the keys |
| WriteConditions.GuardedJsonPatch | internal/k8s/patch_precondition.go:13-28 | tests, operations, tests succeeds exactly on the approved state when the operations succeed and keep it, and then equals the operations alone |
| WriteConditions.GuardedMergePatch | internal/k8s/patch_precondition.go:29-75 | on any document the rewritten merge patch differs from the caller's in the two pinned fields only |
| WriteConditions.GuardedMergeOnApproved | internal/k8s/patch_precondition.go:29-75 | on the approved state it is the caller's merge patch |
| WriteConditions.MergeRefusedExactly | internal/k8s/patch_precondition.go:29-74 | a merge patch is refused exactly when it or its metadata is no object or it names another version or uid |
| WriteConditions.PatchHitsApprovedStateOnly | internal/k8s/resource.go:794-835 | a guarded patch goes through on the approved state or not at all, and when it must go through |
| WriteConditions.PinnedBody | internal/k8s/patch_precondition.go:39-75 | what strategic and apply bodies carry, and that every other member is the caller's |
| WriteConditions.UpdateHitsApprovedVersionOnly | internal/k8s/resource.go:688-734 | a replacement is stored exactly over the approved version (and an agreeing uid), all else as the manifest has it |
| WriteConditions.ScaleIsVersioned | internal/k8s/resource.go:780-791 | a scale body is never refused and names the approved version |
| JsonPatch.ApplyOpsConcat | internal/k8s/patch_precondition.go:24-28 | applying one list after another is applying their concatenation |
| JsonPatch.MergeMember | internal/k8s/patch_precondition.go:29-38 | a merge patch, member by member |
| PatchSemantics.ReplaceExactly | internal/k8s/patch_precondition.go:13-28 | a place can be replaced exactly when it exists, and then holds the new value |
| PatchSemantics.ReplaceElsewhere | internal/k8s/patch_precondition.go:13-28 | every place apart from it is as it was |
| PatchSemantics.AddExactly | internal/k8s/patch_precondition.go:13-28 | adding is replacing the container by the container with the value |
| PatchSemantics.RemoveExactly | internal/k8s/patch_precondition.go:13-28 | removing is replacing the container by the container without the value |
| PatchSemantics.PointerReadsBack | internal/k8s/patch_precondition.go:17-20 | any place, spelled as a pointer, reads back as itself |
| CredentialMask.MaskCredentialValues | internal/mcp/gate.go:945-966 | the masked arguments, JSON Patch first, then the whole tree |
| CredentialMask.MaskCredentialTree | internal/mcp/gate.go:972-991 | the recursive rewrite, whatever the order of the keys |
| CredentialMask.MaskJsonPatchOps | internal/mcp/gate.go:993-1020 | every operation on a credential path is masked |
| CredentialMask.FindCredentialPath | internal/mcp/gate.go:1022-1032 | the loop over the two field names, in any order; which paths these are is in the next rows |
| CredentialScreen.PatchValueIsHidden | internal/mcp/gate.go:993-1032 | an operation at or below either credential field keeps nothing of its value but what hides it, by the size that fits the field |
| CredentialScreen.OtherOperationIsLeft | internal/mcp/gate.go:993-1032 | an operation at any other path, or without a value, is left as it is by the pass over the patch |
| CredentialScreen.ScreenHidesPatchValues | internal/mcp/gate.go:945-966 | on the whole screen, every such operation of the list, wherever it stands |
| CredentialScreen.FieldsAreHidden | internal/mcp/gate.go:972-991 | at any depth, every entry of a data or stringData is hidden by its size |
| CredentialScreen.QuantaExactly | internal/mcp/gate.go:1046-1058 | which texts are encoded data, and of how many bytes |
| CredentialMask.MaskRevealsSizesOnly | internal/mcp/gate.go:972-1058 | two trees render alike if and only if they differ at most in credential values of equal reported sizes |
| CredentialMask.MaskedArgumentsReveal | internal/mcp/gate.go:945-1058 | the same for whole argument objects, values masked twice included |
| CredentialMask.OutsideUntouched | internal/mcp/gate.go:972-991 | every node outside credential fields, and every key, is unchanged |
| CredentialMask.CredentialFieldMasked | internal/mcp/gate.go:972-991 | at any depth, what stands under a credential field is masked |
| CredentialMask.MaskedTwice | internal/mcp/gate.go:956-959 | what a second masking makes of a masked value |
| CredentialMask.DataSizeIsCredentialSize | internal/mcp/gate.go:1046-1058 | for encoded data the size shown is the size of the credential, not of its encoding |
| Declarations.ProbesDecide | internal/mcp/provenance.go:88-106 | the verdict of two probes holds of every call: never, always, or exactly when the kind is sensitive |
| Declarations.NeedTable | internal/mcp/gate.go:86-290 | which shipped tools never, sometimes and always ask |
| Declarations.ReasonAccompaniesApproval | internal/mcp/provenance.go:113-123 | every call that goes on to the gate has a non-empty reason of bounded length, and no possibly gated handler receives it |
| Declarations.ResolvedPairs | internal/mcp/gate.go:306-412 | a call that resolves exercises one pair, a create one for each document, with the tool's own verb |
| Declarations.DocumentRoundTrip | internal/mcp/create.go:24-94 | a document's own argument object parses back to that document alone |
| Declarations.CreateVerbs | internal/mcp/create.go:57-94 | every parsed document is a create of itself, and there is one |
| Declarations.NeedingAll | internal/mcp/gate.go:315-333 | state-changing pairs are all gated |
| ReasonSplit.SplitReason | internal/mcp/provenance.go:129-183 | the split as the specification gives it, for every text |
| ReasonSplit.TakeApart | internal/mcp/provenance.go:134-167 | the decoder loop keeps exactly the other members and the last reason, or nothing if the text does not parse |
| ReasonSplit.SplittingKeepsTheRest | internal/mcp/provenance.go:125-183 | a malformed text or one without a reason goes on as it came; else what goes on parses to the other members, in order, values byte for byte, the last reason counts, and splitting again changes nothing |
| ReasonSplit.NoReasonIsLeft | internal/mcp/provenance.go:168-182 | a reason that goes on is of bounded length and no member of that name is left |
| ReasonSplit.EscapedReadsBack | internal/mcp/provenance.go:185-191 | an encoded key reads back as itself, wherever it stands |
| ReasonSplit.RenderedReadsBack | internal/mcp/provenance.go:149-167 | members written out and read back are the same members |
| DecodedReason.SplitsAgree | internal/mcp/provenance.go:125-183 | cutting the reason out of the text and out of the decoded members is the same: refused together, same reason, and the rest of the text decodes to the rest of the members |
| DecodedReason.ReasonTakenExactly | internal/mcp/provenance.go:168-182 | a reason is absent, null or a text of at most 2000 characters, and is taken out trimmed |
| DecodedReason.AdmittedExactly | internal/mcp/provenance.go:113-123 | a call goes on unless its reason is unusable, or missing where approval will be asked for |
| JsonGrammar.NumbersAreValues | internal/mcp/provenance.go:144-148 | every number of the grammar is read as a value |
| JsonGrammar.OnlyNumbersBesides | internal/mcp/provenance.go:144-148 | and nothing else is that does not begin as another value |
| JsonGrammar.ArraysAreValues | internal/mcp/provenance.go:144-148 | arrays of values are values |
| JsonGrammar.ObjectsAreValues | internal/mcp/provenance.go:144-148 | objects of values are values |
| JsonText.ValueLocal | internal/mcp/provenance.go:144-148 | a value reads the same wherever it stands |
| ApprovalGate.Decision.Consume | internal/approvalgate/approvalgate.go:243-252 | only the first call succeeds |
| ApprovalGate.Client.Authorize | internal/approvalgate/approvalgate.go:327-357 | a decision exactly when APPROVED is observed, after the call was described; automatic exactly when seen at creation; else the mapped refusal |
| ApprovalGate.Client.Poll | internal/approvalgate/approvalgate.go:408-439 | ends on the first answer that is not pending or at the deadline, within floor(timeout / interval) + 1 polls |
| ApprovalGate.RefusalsExactly | internal/approvalgate/approvalgate.go:327-439 | why a call is refused, case by case |
| CallRecords.RecordNamesEveryDecision | internal/mcp/mcp.go:292-301 | the record's request ids can be read back, one for each decision spent |
| CallRecords.CallNote.NoteGate | internal/mcp/mcp.go:292-301 | decisions add up in order, automatic only if all are |
| CreateBatch.CallCreateBatch | internal/mcp/create_gate.go:12-98 | nothing is sent unless every document has a distinct approval; then the answer lists the documents once, in order, as far as the ends, the caller and the unspent approvals let it go, and exactly the approvals of those tried are spent |
| CreateBatch.ApproveAll | internal/mcp/create_gate.go:17-49 | succeeds exactly when all answers are distinct decisions, else with the refusal of the first that is not |
| CreateBatch.ExecuteAll | internal/mcp/create_gate.go:51-97 | created, failed and unattempted are the documents in order, the first failure ends it |
| CreateBatch.CreateOne | internal/mcp/create_gate.go:56-84 | the approval is spent before the create and stays spent |
| CreateBatch.ParsedDocumentsAreSingle | internal/mcp/create_gate.go:20-24 | the declaration check never stops a document that was parsed |
| CreateBatch.RefusedYetWrote | internal/mcp/mcp.go:459-482 | where no failure is silent, a batch is recorded as refused though something was created exactly when the create that ended it was not the first and found the service unavailable |
| CreateBatch.SteadyServiceIsRecordedRight | internal/mcp/mcp.go:459-482 | never with a service unavailable always or never |
| CreateBatch.RefusedYetWroteExample | internal/mcp/mcp.go:459-482 | the smallest batch of which it is true |
| CreateBatch.ListedWereCreated | internal/mcp/create_gate.go:56-97 | everything listed as created was created exactly when no failure among those tried carried an empty text |
| Dispatcher.Handler.ToolsCall | internal/mcp/mcp.go:361-482 | every path emits one record, with a reason exactly when refused, the request's tool name and times that add up; outside a batch the handler runs exactly when the call was admitted and needs no approval or was granted an unspent decision, spent after, with its target as shown; a batch runs exactly when every document was granted, spends the approvals of those tried, and its record is wrong exactly as stated |
| Dispatcher.RunsExactly | internal/mcp/gate.go:602-666 | the same read plainly, by tool: a gated call runs only on a decision of its own, and its record names that decision |
| Dispatcher.RefusedBecause | internal/mcp/mcp.go:459-482 | each verdict of the gate under its own reason and request, and nothing ran |
| Dispatcher.Handler.AuthorizeAndInvoke | internal/mcp/gate.go:602-666 | the path of one object: asked exactly when something needs approval |
| Dispatcher.Handler.DeleteCollection | internal/mcp/delete_collection.go:77-147 | the path of a selection: an empty one succeeds without anyone asked |
| Dispatcher.Handler.AskAndRun | internal/mcp/gate.go:619-665 | a handler runs exactly on a decision this call spent and a target, where there is one, found as shown |
| Dispatcher.Handler.Route | internal/mcp/mcp.go:409-436 | the three gate paths: which calls run, which decision they spend, and how each that does not run ends |
| Metrics.Metrics.Emit | internal/metrics/metrics.go:95-116 | after any records every series equals a count over them |
| Metrics.Metrics.Agrees | internal/metrics/metrics.go:95-116 | a tool's refusals add up to its refused calls, its durations to its other calls, gate waits to the records with a verdict |
| Metrics.New | internal/metrics/metrics.go:44-91 | refused exactly when a tool takes the name unknown tools are counted under |
| TokenCaps.ApplyTokenCaps | internal/mcp/mcp.go:624-645 | the fitting over all caps, the one-cap shortcut included; and in the words of the rules, when a token is granted and which |
| TokenCaps.ApplyTokenCap | internal/mcp/mcp.go:668-708 | one cap of either kind |
| TokenCaps.CapPermissions | internal/mcp/mcp.go:710-735 | omitted permissions become the cap's; named ones pass exactly when each is listed at a level its limit admits |
| TokenCaps.LevelsGranted | internal/mcp/mcp.go:622-622 | a limit of read admits read, write admits read and write, admin all three, anything else nothing |
| TokenCaps.GrantedAsAsked | internal/mcp/mcp.go:624-735 | a request is granted exactly when some cap is for its repositories and levels, and no second one if it leaves something out; and the token is that cap's |
| TokenCaps.GrantedWithinOneCap | internal/mcp/mcp.go:624-735 | an accepted request lies inside one cap, named arguments unchanged |
| TokenCaps.RefusedExactly | internal/mcp/mcp.go:624-645 | refused exactly when no cap fits or an omitted argument has two fits |
| TokenCaps.OrderDoesNotMatter | internal/mcp/mcp.go:624-645 | the same answer for every ordering of the caps |
| TokenCaps.NamedRequestIsAllOrNothing | internal/mcp/mcp.go:624-735 | a fully named request comes back as it is exactly when some cap fits |
| TokenCaps.OmittedNeedsOneFit | internal/mcp/mcp.go:638-643 | with no cap listed twice, an omission is filled in exactly when one cap fits |
| GitHubRules.ParseGitHubRuleSources | internal/auth/github_oidc.go:125-146 | all sources parse, with labels unique across them, or none do |
| GitHubRules.ParseRuleSource | internal/auth/github_oidc.go:154-218 | one source, rule by rule |
| GitHubRules.RuleAcceptedExactly | internal/auth/github_oidc.go:154-312 | a rule is accepted exactly when its repository, workflow and tools are well-formed and each cap is, away from the rule's own workflow files; and what it becomes |
| GitHubRules.CapsExactly | internal/auth/github_oidc.go:345-374 | a caller's caps are those of its rules with the token tool, and any request is granted when one of these sets none |
| GitHubRules.GrantsFor | internal/auth/github_oidc.go:345-374 | the tools and caps of the matching rules, no caps when some rule is unbounded |
| GitHubRules.StartupCheckImpliesGuard | internal/auth/github_oidc.go:248-312 | once the rules parsed, no request accepted under the collected caps is refused by the run-time guard |
| GitHubRules.AtMostTwoRulesMatch | internal/auth/github_oidc.go:125-146 | at most two rules match one caller |
| GitHubRules.RepeatedToolMakesOmissionsAmbiguous | internal/auth/github_oidc.go:355-367 | beside any other rules, a matching rule listing the token tool twice makes an omission ambiguous as soon as one of its caps fits; refused in any case where no matching rule lists it once |
| GitHubRules.OmissionNeedsOneCollectedFit | internal/auth/github_oidc.go:355-367 | for any rules, an omission is filled in exactly when one collected cap fits, each counted as often as its rule lists the tool |
| GitHubRules.RepeatedToolExample | internal/auth/github_oidc.go:355-367 | the smallest such rule |
| GitHubRules.ParserAcceptsRepeatedTool | internal/auth/github_oidc.go:154-218 | the parser accepts such a rule |
| GitHubRules.WorkflowPathExactly | internal/auth/github_oidc.go:332-343 | a workflow is recognised exactly in references to that path of that repository |
| CollectionSnapshot.ListTargets | internal/k8s/collection_precondition.go:61-143 | at most 100 pages; a snapshot exactly when a complete listing exists, and then all its items, strictly ordered, in one namespace and version |
| CollectionSnapshot.CheckPage | internal/k8s/collection_precondition.go:82-128 | a page is refused exactly when the listing stops being good |
| CollectionSnapshot.SameTargets | internal/mcp/delete_collection.go:183-193 | position by position equality |
| CollectionSnapshot.SameTargetsIsSetEquality | internal/mcp/delete_collection.go:180-193 | on snapshots this decides equality of the sets of objects |
| SimilarKinds.EditDistance | internal/k8s/resource.go:363-381 | the two rows compute the recursive distance |
| SimilarKinds.Symmetric | internal/k8s/resource.go:363-381 | the distance is symmetric |
| SimilarKinds.ZeroOnlyOnEqual | internal/k8s/resource.go:363-381 | zero exactly on equal texts |
| SimilarKinds.Triangle | internal/k8s/resource.go:363-381 | the triangle inequality |
| SimilarKinds.NoShorterScript | internal/k8s/resource.go:363-381 | no sequence of single edits is shorter than the distance |
| SimilarKinds.ShortestScript | internal/k8s/resource.go:363-381 | and some sequence of single edits is exactly that long |
| SimilarKinds.RankSimilarKinds | internal/k8s/resource.go:303-346 | at most five distinct labels ordered by distance and name, none left out that precedes a kept one |
| SimilarKinds.FoundExactly | internal/k8s/resource.go:303-346 | the candidates are the admissible resources and no other |
| DocInventory.Reachable | scripts/check_doc_inventory.py:84-112 | the least set with the hub's documents closed under links, and exactly the dangling links of the hub and of every document |
| DocInventory.ReachedByLinks | scripts/check_doc_inventory.py:84-112 | a document is in it exactly when a chain of links leads to it |
| DocInventory.Normalize | scripts/check_doc_inventory.py:61-71 | the path a target leads to |
| DocInventory.NormalizedIsNormal | scripts/check_doc_inventory.py:61-71 | no empty, "." or ".." segment, and normalising again changes nothing |
| DocInventory.LinksAreRelative | scripts/check_doc_inventory.py:61-81 | a target is read from its document's directory |
| DocInventory.UpUndoesDown | scripts/check_doc_inventory.py:65-70 | into a directory and out again leads nowhere else |
| DocInventory.MdLinks | scripts/check_doc_inventory.py:74-81 | the documents a text links to |
| CommentLedger.CheckSurface | scripts/check_comment_policy.py:789-801 | when nothing fails, the registered lines are the measured lines and every file with lines is in exactly one row |
| CommentLedger.NothingFailsNothingIsLost | scripts/check_comment_policy.py:590-669 | conservation, from the rules alone |
| CommentLedger.Checker.CheckLedger | scripts/check_comment_policy.py:590-638 | the three passes and the sum of the rows |
| CommentLedger.Checker.CheckDuplicates | scripts/check_comment_policy.py:612-618 | every registration after the first of its path, with the first row's date |
| CommentLedger.Checker.CheckScope | scripts/check_comment_policy.py:641-669 | files with lines in no row, and rows' files that are not measured |

## Left out

- HTTP, process environment and start-up wiring, telemetry, and the clients of GitHub, AWS, Grafana, OpenSearch, PocketAide, Drop and the session platform: transport, with no state of their own.
- JWT, JWKS and RSA verification in internal/auth: library cryptography; the model begins with claims already authenticated.
- Streaming of exec, attach, port-forward and proxy: in the step system such a request is a pair and no effect on the cluster.
- Decoding of YAML manifests, the parsing of group versions and the guess of a kind's plural: parameters of the model, shared by the declarations and the confinement as in the source.
- Strategic merge and server-side apply inside the apiserver: the outcome of such a write is arbitrary, only what its body carries is stated.
- Whole approval texts, tables, log lines, tool lists and the wording of errors: of the approval screen only the masked arguments are modelled.
- The reading of a sensitive target by its metadata alone: the view of a target is its whole document.
- encoding/json matches the argument names `arguments` and `patch` in any case and limits nesting to 10000; names are exact and depth is unlimited here. Text is taken as valid UTF-8.
- ASCII: lower-casing, case-insensitive comparison and white space are those of ASCII.
- External ids in the step system: the batch of Protocol asks for distinct request ids only; CreateBatch asks for both.
- CredentialMask.MaskCredentialTree: works on values, where the source overwrites maps in place, so aliasing between parts of one argument tree is not captured.
- ProtocolBatch.ApprovedBatchCreates: for documents at places of their own where nothing is yet; a create that fails ends a batch, which CreateBatch models.
- ProtocolTheorems.WritesHitTheShownDocument: for requests built by the modelled handlers; a handler that sent another version inside the same pair would still be confined to the pair, not to the version. Of a strategic merge and a server-side apply only the identity of what is stored is stated.
- ApprovalGate.Client.Poll: time passes in whole seconds and timers fire exactly when due.
- Dispatcher.Handler.ToolsCall: the target coordinate and the principal of the record are not modelled.
- Metrics.Metrics.Emit: histogram buckets and sums are not modelled, only how many samples each series has.
- CommentLedger.CheckSurface: the lines and the fingerprint of a file are parameters; the comment lexers, the parsing of the ledger and the rules on axes and structure are left out.
- DocInventory.Reachable: the regular expressions that find links, the classification of documents and the comparison with the tracker's line are left out.
