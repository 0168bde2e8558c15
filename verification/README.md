# A verified model of the CPSwarm deployment tool and of the Vue runtime it ships

The repository has two parts with hard logic, and this project models both.

**The Vue runtime behind the management UI** (`examples/ui/lib/vue.js`).

- *Patching.* `updateChildren` edits a child list in place with four cursors and a key index that is built late;
  `patchVnode` recurses through it. The document is a store of nodes with identity, child lists and parent links
  (module `Dom`). The main result is that patching refines rebuilding: whatever was on the page before, the
  document then shows the new virtual node inside the old element, with nothing outside it changed, and reads back as
  the tree that creating it from scratch would give, exactly when no element has lost an empty text; which ones have
  is determined too (`Patch.PatchVnode`, `Patch.PatchRoot`), for keyed child lists by the old and the new virtual node
  alone (`Mounting.WholeExactly`). Elements are reused by a matching, at every depth (`Mounting.Follows`): every keyed
  pair of same nodes keeps its element, no old node is left over that is the same as a created one, and where the lists
  are the same from the start or to the end, elements stay where they are, while those next to them change sides if
  they can. `Patch.UpdateChildren` adds that what is not reused leaves the document, and that the loop takes at most
  |old| + |new| turns.
- *Reactivity.* Getters are arbitrary deterministic programs whose next read depends on what they have read so far,
  and computed properties may read computed properties, torn-down ones too. The invariant is that subscriptions are
  two-sided, that evaluations nest, and that every active watcher not marked stale holds the value and exactly the deps
  of evaluating its getter on the data of the moment. From it follows that any history of creations, sets, reads,
  watcher runs and teardowns, from the start of the program on, reads what direct evaluation would yield, and keeps
  torn-down watchers out of all subscriptions (`Reactive.Runtime.Play`, `Reactive.History`); the watchers that are not
  lazy hold what direct evaluation yielded when they last ran, and just those are queued that saw something that was
  set since. All that is asked is that what an evaluation reads has been created and not torn down by then
  (`Reactive.Possible`). Single reads are proved without that: a torn-down property that is not dirty answers from its
  cache, and all else is as direct evaluation with these caches makes it.
- *Scheduling.* A queue that is spliced while it is iterated. Any turn keeps the rest of the queue strictly sorted,
  the `has` table equal to it, and runs in balance with accepted calls. If no run queues a watcher below its own,
  a flush ends and runs in order; which watchers run is determined by the sorted queue and the calls the runs make;
  every waiting watcher and every call is answered by a later run, unless the loop guard fires; and nothing else runs.
- *Template parser.* Two stacks in different closures, one driven by the callbacks of the other: they hold the same
  tags after every token, and the callbacks are those the tokens determine, well bracketed and all closed at the end.
  Where HTML is expected, only phrasing content is ever opened directly inside a p, and no tag that can be left open
  directly inside one of its name.
- *KeepAlive* is a least-recently-used cache, compared with the recency of the whole history of renders.
- *normalizeArrayChildren* keeps the non-text nodes and the text between them, merges adjacent text, is idempotent, and
  gives each element without a key in a nested v-for list a key of its own while all other keys stay.

**The deployment protocol** (the Go code of manager and agent).

- The manager covers the matching targets with ids and tags, publishes one frame per topic, and the network delivers
  by prefix: `Routing.RoutingIsExact` says that exactly the targets asked for are reached, and
  `Routing.RoutingExactly` for which fleets that is so.
- `SendTask` is the retry loop, with whom it still waits for, what it publishes and how long it sleeps.
- `Agent` drops redundant messages and repeated or stale announcements against a bounded history.
- `Deployment.AnnouncedOnce` puts the three together, from the query over frames, subscriptions, the splitting of frames
  and the worker's dispatch to the history: with all attempts of a run passing by an agent among any other traffic,
  and as long as its history is not cleared, the agent accepts the announcement once if the query asked for it, it would
  not have been dropped before and no greater type overtakes it; otherwise not at all. Once the task itself has come
  in, the agent's last operation on its topic is to unsubscribe. `Agent.AcceptedAgain` says exactly when clearing makes
  it accept a copy again.
- `RingBuffer` and `Logger` are the agent's log store and its batches.

Objects that the source updates in place are classes (`Dom.Document`, `Reactive.Runtime`, `Scheduler.Scheduler`,
`Parser.Tokenizer`, `Parser.TreeBuilder`, `KeepAlive.KeepAlive`, `RingBuffer.Buffer`, `Logger.Logger`, `Agent.Agent`);
their methods follow the source's branches and loops and are proved against functions of the values before the call.

## What the code does not do

Each of these is a property one would expect of the code. Where a caller can tell beforehand whether it holds, the lemma
gives the exact condition.

- `Patch.TextIsBuilt`: an element with a text is patched to what building it would yield exactly when the text is not
  empty, or was empty before and had its node; `Patch.EmptyTextIsLost` shows a case where it is not.
  With keyed child lists `Patch.PatchedExactly` says it of the whole tree.
- `Reactive.PopUndoesPush`, `Reactive.NoTargetIsLost`: after `pushTarget()` without a watcher inside an evaluation, the
  next push and pop leave the evaluation's watcher as target instead of none.
- A torn-down watcher can get back into a dep's subscribers, since neither `evaluate` nor `addDep` looks at `active`:
  `Reactive.CollectApart` and `Reactive.ApartExactly` say exactly when, `Reactive.TornDownIsListed` shows a case. And a
  torn-down computed property that is not dirty is never told of a change again: it is right as long as none of its deps
  changes (`Reactive.CacheStaysRight`); `Reactive.TornDownIsStale` shows a case where it is not, and hands its old value
  on to a live watcher.
- `Scheduler.MutualRequeueIsNotCaught`: two watchers that queue each other run for ever, and the loop guard, which
  looks only for a watcher that queues itself, never counts them.
- `Parser.InPreExact`: the flag `inPre` is right after every callback of a run exactly when no pre element is closed, by
  an end tag or as a self-closing tag, while another one is open; `Parser.UnaryPreClears` and `Parser.InnerPreClears`
  show the two cases.
- `Routing.PagingEnds`: the paging loop of `MatchTargets` compares one page with the total, so it ends exactly when
  there are at most 100 hits.
- `Routing.SplitUndoesFrame`, `Routing.ColonMisroutes`: a topic with a colon in it is not recovered from its frame,
  and its frames go to the subscribers of what is before the colon. `Routing.ReceivesExactly` says when a
  subscription can be confused with another topic, `Routing.RoutingExactly` for which fleets that misroutes.
- `SendTask.FailedQueryDrops`: one failing delivery query drops its target and all later ones from the pending list.
- `Agent.ClearForgets`, `Agent.ForgottenExactly`, `Agent.SubscribedAgain`: a stale or repeated announcement is accepted
  again once news of another id has made the full history be cleared, and only then.
- `Logger.ReportComplete`: a report holds older logs too, exactly when logs are out of order after its first one.

## Model

| member | source | states |
|---|---|---|
| Dom.DetachedLinked | examples/ui/lib/vue.js:5328-5330 | taking a node out keeps child lists and parent links in agreement for the whole document |
| Dom.AttachedLinked | examples/ui/lib/vue.js:5324-5326 | so does putting a parentless node in at any place |
| Dom.Document.Create | examples/ui/lib/vue.js:5300-5322 | a node with a new identity, no parent and no children; all else unchanged |
| Dom.Document.InsertBefore | examples/ui/lib/vue.js:5324-5334 | the node leaves the place it had and stands right before the reference node, or last; nothing else changes |
| Dom.Document.RemoveChild | examples/ui/lib/vue.js:5328-5330 | the node is out of its parent's child list and has no parent, the rest of the document is the same |
| Dom.Document.NextSibling | examples/ui/lib/vue.js:5340-5342 | the child of the same parent right after the node, or none if it is the last or has no parent |
| Dom.Document.SetTextContent | examples/ui/lib/vue.js:5348-5350 | a text node takes the text; an element loses all children and gains one text node, except for the empty text |
| VNodes.SameVnodeEquivalence | examples/ui/lib/vue.js:5432-5455 | being the same kind of node is an equivalence |
| Mounting.ShowsFrame | examples/ui/lib/vue.js:5885-5885 | a mounted virtual node stays on the page under any change outside the document nodes it occupies |
| Mounting.ShowsDenotes | examples/ui/lib/vue.js:5523-5588 | the document under a mounted virtual node reads back as the tree that the mounted node stands for |
| Mounting.SeenIsBuilt | examples/ui/lib/vue.js:5663-5674 | that is the tree which building the virtual node yields if and only if no element lacks the node for its empty text |
| Mounting.NothingToLose | examples/ui/lib/vue.js:5921-5934 | a node without empty texts on elements is always whole |
| Mounting.FollowsSelf | examples/ui/lib/vue.js:5881-5883 | a node that is left alone loses nothing and keeps all elements |
| Mounting.PartnerIsBearer | examples/ui/lib/vue.js:5828-5838 | the old node whose element a keyed child has is the one that makes a keyed pair with it, if there is one |
| Mounting.WholeExactly | examples/ui/lib/vue.js:5921-5934 | with keyed lists, an update loses no empty text if and only if no element gets one in place of another text or of none, comparing keyed partners of the old and new node at every depth |
| Mounting.DenotesUnique | examples/ui/lib/vue.js:5523-5588 | a document subtree reads back as one tree only, so "shows the same tree" is an equality of trees |
| Mounting.GroveRemove | examples/ui/lib/vue.js:5497-5503 | removing one child's element leaves a parent showing exactly the other children in order |
| Mounting.GroveInsert | examples/ui/lib/vue.js:5651-5661 | inserting a shown subtree before a child leaves a parent showing it just there, all others as before |
| Rendering.Insert | examples/ui/lib/vue.js:5651-5661 | the element goes before the reference only if that is still a child of the parent; otherwise nothing happens |
| Rendering.Render | examples/ui/lib/vue.js:5546-5587 | the whole subtree is made of new nodes, shows the virtual node, and no existing node changes |
| Rendering.CreateChildren | examples/ui/lib/vue.js:5663-5674 | the element comes to show exactly the child list, or one text node for a text, all of new nodes |
| Rendering.CreateElm | examples/ui/lib/vue.js:5523-5588 | the document denotes the built tree at the new element, empty texts included, placed before the reference among the parent's children |
| Rendering.AddVnodes | examples/ui/lib/vue.js:5720-5724 | the given stretch of the list appears between what was before and after the reference, in order, as new nodes |
| ChildList.MoveIn | examples/ui/lib/vue.js:5818-5838 | moving one child before the reference turns the row into the same children with that one just there |
| ChildList.RemoveVnodes | examples/ui/lib/vue.js:5740-5752 | the defined slots of the stretch, and only they, leave the row and are without a parent |
| ChildList.RemoveOne | examples/ui/lib/vue.js:5497-5503 | the node leaves its parent's row, every other parent link stays |
| Matching.MatchTake | examples/ui/lib/vue.js:5808-5838 | one more reuse keeps "each old element is used by at most one new node, which is the same kind of node", and where empty texts are lost |
| Matching.MatchCreate | examples/ui/lib/vue.js:5831-5842 | a created node keeps the matching, and leaves behind no keyed partner and, if it has no key, no same old node |
| Matching.TakenBy | examples/ui/lib/vue.js:5827-5834 | an old node that bears the key of a node still to be placed was not reused before, though the index is older |
| Matching.NoPartner | examples/ui/lib/vue.js:5828-5842 | if the index has no same node for a key, no old node is a keyed partner, even those passed before it was built |
| Matching.CreateKeyToOldIdx | examples/ui/lib/vue.js:5457-5465 | each key between the bounds is mapped to the last place that bears it, and no other key is in the map |
| Matching.FindIdxInOld | examples/ui/lib/vue.js:5873-5878 | the first same node before the end bound, or none: the last slot is not looked at |
| Rows.RowStart | examples/ui/lib/vue.js:5808-5820 | how the child list reads before and after its first old node is placed first or last |
| Rows.RowEnd | examples/ui/lib/vue.js:5812-5825 | the same for the last old node |
| Rows.RowMiddle | examples/ui/lib/vue.js:5834-5838 | the same for an old node in the middle, whose slot is blanked |
| Rows.RowNew | examples/ui/lib/vue.js:5831-5832 | the same for a node created before the first old one |
| Patch.TakeStep | examples/ui/lib/vue.js:5804-5845 | at whichever pair of cursors a reuse happens, cursors, matching and key index stay right together |
| Patch.SameStart | examples/ui/lib/vue.js:5808-5811 | the loop invariant after both start cursors advance over a node patched in place |
| Patch.SameEnd | examples/ui/lib/vue.js:5812-5815 | the loop invariant after both end cursors retreat over a node patched in place |
| Patch.MovedRight | examples/ui/lib/vue.js:5816-5820 | the loop invariant after the first old node has become the last new one |
| Patch.MovedLeft | examples/ui/lib/vue.js:5821-5825 | the loop invariant after the last old node has become the first new one |
| Patch.MovedFromMiddle | examples/ui/lib/vue.js:5834-5838 | the loop invariant after a node found by key or search has been moved and its slot blanked |
| Patch.CreatedNew | examples/ui/lib/vue.js:5831-5842 | the loop invariant after a node without partner has been created in front |
| Patch.LookUp | examples/ui/lib/vue.js:5827-5834 | the index, built once, still points at an old slot between the cursors that nobody has taken |
| Patch.NotFound | examples/ui/lib/vue.js:5873-5878 | if the search finds none and the last old node is not the same either, no old node left is |
| Patch.NoneIsLeft | examples/ui/lib/vue.js:5826-5842 | if no old node between the cursors is the same, none that is still free is |
| Patch.PlaceStart | examples/ui/lib/vue.js:5826-5844 | the keyed or searched arm places the next new node and keeps the loop invariant, whichever way it goes: a node without a key is created only if no old node left is the same |
| Patch.SteadyNow | examples/ui/lib/vue.js:5804-5825 | while the lists are the same from the start, and then to the end, the first or second arm of the loop is taken; then the third or fourth if the nodes at opposite ends are the same |
| Patch.EndsKept | examples/ui/lib/vue.js:5804-5825 | so elements there stay where they are, and of what remains the first old element goes to the last new node if that is the same, or else the last old one to the first new node |
| Patch.AppendRest | examples/ui/lib/vue.js:5847-5849 | when the old list is used up, the row becomes the new list; reuse and removal are as promised |
| Patch.DropRest | examples/ui/lib/vue.js:5850-5852 | when the new list is used up, the row becomes the new list and unused old nodes are out |
| Patch.BooksClosed | examples/ui/lib/vue.js:5803-5852 | at the end every surviving element belongs to a same old node, every keyed pair kept its element, no old node is left over that is the same as a created one without a key or with a unique one, and empty texts are lost just where an element was reused from one with another text |
| Patch.UpdateChildren | examples/ui/lib/vue.js:5783-5853 | the parent's children are exactly the new nodes' elements, each denoting its built tree if and only if no empty text in it was lost; reuse is a matching of same nodes that keeps keyed pairs, leaves over no old node that is the same as a created one, keeps elements in place where the lists are the same from the start or to the end, and moves the next one to the other end if it is the same there; the rest left; at most old plus new turns |
| Patch.ReusedKeeps | examples/ui/lib/vue.js:5783-5853 | an update of a child list gives a child an old element only from a same node, to every keyed pair the element it had, and leaves over no old node that is the same as a created one |
| Patch.PatchKids | examples/ui/lib/vue.js:5921-5934 | in all cases of text and children, the element's children come to be those of the new node, but for an empty text where there was another; at every depth, keyed pairs keep their elements and as many elements as possible are reused |
| Patch.TextShown | examples/ui/lib/vue.js:5925-5933 | what an element shows after its text content was set, and that its old children are the only other nodes touched |
| Patch.PatchVnode | examples/ui/lib/vue.js:5880-5938 | patching refines rebuilding: the same element shows the new node, and denotes the tree built from it if and only if no empty text was lost, which is determined by the old node and the elements reused; at every depth elements are reused from same nodes only, as many as possible, and keyed pairs keep theirs; nothing outside it changes |
| Patch.TextIsBuilt | examples/ui/lib/vue.js:5932-5934 | an element with a text ends up as building it would make it if and only if the text is not empty, or was empty before and had its node |
| Patch.PatchedIsBuilt | examples/ui/lib/vue.js:5880-5938 | without empty texts on elements the patched element always denotes the built tree |
| Patch.PatchedExactly | examples/ui/lib/vue.js:5880-5938 | with keyed lists, the patched element denotes the built tree if and only if no element gets an empty text in place of another text or of none |
| Patch.EmptyTextIsLost | examples/ui/lib/vue.js:5932-5934 | a paragraph whose text becomes empty does not denote the tree that building it yields |
| Patch.ParentOutside | examples/ui/lib/vue.js:6112-6113 | the parent of a mounted element lies outside what is mounted |
| Patch.PatchRoot | examples/ui/lib/vue.js:6066-6168 | the place of the old root shows the new node, as built if and only if no empty text was lost, which for keyed lists the old and new node tell; the element is kept if and only if the nodes are the same, with keyed pairs at every depth keeping theirs, else replaced by a whole one |
| Patch.ReplaceRoot | examples/ui/lib/vue.js:6112-6162 | the new element stands at the position of the old one, which is out of the document |
| Patch.PatchInput | examples/ui/lib/vue.js:5432-5455 | an input whose type changes keeps its element if and only if both types are the same or both are text, number, password, search, email, tel or url |
| Reactive.OnlyDepsMatter | examples/ui/lib/vue.js:3135-3157 | changing data that an evaluation did not read changes neither its value nor what it reads, even if caches with a changed dep are dropped at the same time |
| Reactive.CacheStaysRight | examples/ui/lib/vue.js:3498-3511 | the cache of a property that is told nothing more stays right as long as none of its deps changes |
| Reactive.SameEval | examples/ui/lib/vue.js:3498-3511 | answering from caches that are right changes neither the value nor the deps of any evaluation |
| Reactive.PopUndoesPush | examples/ui/lib/vue.js:713-720 | a pop restores target and stack if and only if there was a target before the push, or no stack |
| Reactive.NoTargetIsLost | examples/ui/lib/vue.js:713-720 | after a push of no target over a target, the next push and pop lead back to the target instead of to none |
| Reactive.LeftTwoSided | examples/ui/lib/vue.js:3176-3194 | leaving exactly the deps no longer listed keeps subscriptions two-sided, whether or not the watcher is torn down by that |
| Reactive.ApartExactly | examples/ui/lib/vue.js:3498-3511 | a read keeps torn-down watchers out of all lists if and only if each torn-down one it evaluates had listed all that it reads now |
| Reactive.MovedGone | examples/ui/lib/vue.js:3498-3511 | a read changes no watcher that is not lazy, and subscribes none of them that was torn down |
| Reactive.CollectApart | examples/ui/lib/vue.js:3162-3171 | collecting a dep keeps torn-down watchers out of all lists if and only if the watcher is active or listed the dep before |
| Reactive.ApartIsExact | examples/ui/lib/vue.js:3266-3282 | where no torn-down watcher is listed, a dep lists a watcher if and only if it is active and lists the dep |
| Reactive.NotifyKeeps | examples/ui/lib/vue.js:1004-1021 | telling exactly the subscribers of a changed property keeps every unmarked watcher up to date |
| Reactive.Settle | examples/ui/lib/vue.js:3215-3249 | storing a freshly evaluated value restores the invariant for all watchers |
| Reactive.Runtime.constructor | examples/ui/lib/vue.js:707-711 | with no watcher and no target everything is in order |
| Reactive.Runtime.PushTarget | examples/ui/lib/vue.js:713-716 | target and stack as the model of pushing says |
| Reactive.Runtime.PopTarget | examples/ui/lib/vue.js:718-720 | target and stack as the model of popping says |
| Reactive.Runtime.AddDep | examples/ui/lib/vue.js:3162-3171 | for any watcher under evaluation, torn down or not: the dep is collected once, it is subscribed just if it was not listed before, no other watcher changes |
| Reactive.Runtime.CleanupDeps | examples/ui/lib/vue.js:3176-3194 | the buffer swap makes the collected deps the deps, and exactly the deps not touched again lose the subscription |
| Reactive.Runtime.Get | examples/ui/lib/vue.js:3135-3157 | yields what evaluating the getter from scratch yields, only torn-down properties that are not dirty answering from their caches, and leaves exactly the deps read, directly or through computed properties; a torn-down watcher ends up subscribed to those it had not listed |
| Reactive.Runtime.RunGetter | examples/ui/lib/vue.js:3140-3140 | a getter that reads through caches ends with the value and the collected deps of evaluating without the caches of active properties |
| Reactive.ReadyKept | examples/ui/lib/vue.js:3498-3511 | what an evaluation reads stays available while others are evaluated and created |
| Reactive.Runtime.ReadNext | examples/ui/lib/vue.js:3140-3140 | one read hands the getter what evaluating without the caches of active properties would, and collects the deps of that read |
| Reactive.Runtime.ReadData | examples/ui/lib/vue.js:991-1003 | the current value; a running watcher collects just this dep |
| Reactive.Runtime.ReadComputed | examples/ui/lib/vue.js:3498-3511 | torn down or not, a dirty property yields what evaluating its getter now yields, one not dirty and torn down what it has in its cache; a running watcher takes over exactly its deps; who else changed was dirty and is up to date |
| Reactive.Runtime.Evaluate | examples/ui/lib/vue.js:3246-3249 | torn down or not, the watcher is no longer dirty, holds value and deps of evaluating its getter, and is subscribed to those of them that it was subscribed to or had not listed; watchers of its rank or above are untouched |
| Reactive.Runtime.Depend | examples/ui/lib/vue.js:3254-3261 | the running watcher collects all deps of the computed one and nothing else |
| Reactive.Runtime.Update | examples/ui/lib/vue.js:3200-3209 | a lazy watcher becomes dirty, any other is queued |
| Reactive.Runtime.Notify | examples/ui/lib/vue.js:699-705 | exactly the subscribers at the time of the call are told |
| Reactive.Runtime.Told | examples/ui/lib/vue.js:699-705 | setting a property queues exactly the watchers in use whose last run read it |
| Reactive.Runtime.SetData | examples/ui/lib/vue.js:1004-1021 | an equal value changes nothing; another one marks exactly the subscribers, and no watcher is silently stale |
| Reactive.Runtime.Run | examples/ui/lib/vue.js:3215-3240 | an active watcher is up to date and no longer queued; an inactive one is left alone; none is added or torn down |
| Reactive.Runtime.Current | examples/ui/lib/vue.js:3215-3240 | a watcher in use that is not queued holds the value and deps of evaluating its getter directly now |
| Reactive.Runtime.Flush | examples/ui/lib/vue.js:2977-2981 | after all queued watchers ran, in any order, every active non-lazy watcher is up to date, and the same watchers are active as before |
| Reactive.Runtime.Create | examples/ui/lib/vue.js:3082-3130 | a new watcher is active, and unless lazy holds the value and deps of its getter; the others stay as active as they were; computed properties may be created in any order |
| Reactive.Runtime.Teardown | examples/ui/lib/vue.js:3266-3282 | no dep lists the watcher any more if it was active, all other subscriptions stay, its cache, if not dirty, is a right one, and every other watcher stays as up to date as it was |
| Reactive.LivelyIsDirect | examples/ui/lib/vue.js:3498-3511 | an evaluation that reads nothing torn down is not affected by what torn-down properties have in their caches |
| Reactive.Runtime.Step | examples/ui/lib/vue.js:3498-3511 | one creation, set, read, watcher run or teardown agrees with a runtime that has no caches: a run or a creation leaves value and deps of direct evaluation now, a run leaves the queue, a set queues just those that read the property; no torn-down watcher is listed if none was |
| Reactive.Runtime.Play | examples/ui/lib/vue.js:3498-3511 | over any history of creations, sets, reads, watcher runs and teardowns, every read yields what direct evaluation on the data of that moment yields; data, watchers, what each of them saw when it last ran, and who is queued, end as the history says without caches; torn-down watchers stay out of all lists |
| Reactive.TornDownIsStale | examples/ui/lib/vue.js:3498-3511 | a computed property read and then torn down keeps answering the old value after a set, and a watcher created then takes it over |
| Reactive.TornDownIsListed | examples/ui/lib/vue.js:3162-3171 | a computed property torn down while dirty answers rightly when it is read, and is subscribed again |
| Reactive.History | examples/ui/lib/vue.js:3498-3511 | the same for every history from the start of the program on, after which every watcher in use that is not queued holds what direct evaluation on the final data yields |
| Scheduler.InsertedSorted | examples/ui/lib/vue.js:3059-3063 | inserting a new id into a strictly sorted rest keeps it strictly sorted |
| Scheduler.InsertedAt | examples/ui/lib/vue.js:3059-3063 | the place where the backward search stops is the place of sorted insertion |
| Scheduler.AcceptedAllSorted | examples/ui/lib/vue.js:3050-3071 | any calls keep the rest strictly sorted and add just the called ids |
| Scheduler.MutualRequeueIsNotCaught | examples/ui/lib/vue.js:2982-2996 | two watchers that queue each other alternate for ever and the guard's condition never holds |
| Scheduler.SoundCall | examples/ui/lib/vue.js:3050-3071 | a call during a flush keeps order, table and accounts |
| Scheduler.SoundRun | examples/ui/lib/vue.js:2978-2981 | starting the next run keeps order, table and accounts |
| Scheduler.TurnPaced | examples/ui/lib/vue.js:2977-2997 | after a turn either the guard fired, or the next id is larger, or equal with a higher count |
| Scheduler.PendingStep | examples/ui/lib/vue.js:2978-2981 | one run takes its watcher off what is to run and adds just what it calls for |
| Scheduler.CallsAnswered | examples/ui/lib/vue.js:2977-2997 | in the trace of a flush every waiting watcher and every call of a run appears later, and every run was waiting or called for by an earlier run |
| Scheduler.RunsBalance | examples/ui/lib/vue.js:3050-3063 | runs and what is left are, as multisets, the waiting watchers and the calls that queued something |
| Scheduler.SelfRuns | examples/ui/lib/vue.js:2985-2993 | a watcher that queues itself n times runs n + 1 times and leaves nothing for n up to 100, and is stopped after 101 runs otherwise |
| Scheduler.Scheduler.QueueIdle | examples/ui/lib/vue.js:3050-3071 | outside a flush an id is appended unless it is waiting already, and a flush is awaited |
| Scheduler.Scheduler.Splice | examples/ui/lib/vue.js:3057-3063 | the loop and splice insert in order into the part not yet started and leave the rest |
| Scheduler.Scheduler.QueueFlushing | examples/ui/lib/vue.js:3050-3071 | during a flush the started part is unchanged and the rest accepts the id, once |
| Scheduler.Scheduler.RunNext | examples/ui/lib/vue.js:2977-2997 | with no assumption on what the run queues: the rest stays sorted and is the table, and the guard stops just when the watcher queued itself too often |
| Scheduler.Scheduler.RunAll | examples/ui/lib/vue.js:2977-2997 | if no run queues below itself the loop ends, with nothing left or because the guard fired, and the queue is the trace that start and calls determine |
| Scheduler.Scheduler.FlushSchedulerQueue | examples/ui/lib/vue.js:2961-3014 | the flush runs what the sorted queue and the calls of its runs determine: no waiting watcher and no call is lost, nothing else runs, runs balance with accepted calls; order is non-decreasing, at most 101 runs per id, and it stops early only for an id run 101 times and queued again |
| Scheduler.SelfQueued | examples/ui/lib/vue.js:2961-3014 | the same through the scheduler, whose queue is empty afterwards in either case |
| Scheduler.Scheduler.ResetSchedulerState | examples/ui/lib/vue.js:2949-2956 | everything is as before the first call |
| Parser.ReplayNext | examples/ui/lib/vue.js:9016-9018 | well-bracketed callbacks stay so under a start, and under an end that matches the innermost open tag |
| Parser.TreeBuilder.CloseElement | examples/ui/lib/vue.js:9114-9126 | which element clears which flag |
| Parser.TreeBuilder.Start | examples/ui/lib/vue.js:9136-9240 | `inVPre` holds iff exactly one open element carries `pre`, before and after, unary or not |
| Parser.TreeBuilder.End | examples/ui/lib/vue.js:9242-9253 | popping keeps that, and clears `inVPre` exactly when the carrier closes |
| Parser.InPreStep | examples/ui/lib/vue.js:9119-9121 | from a right `inPre`, a callback leads to a right one if and only if it does not close a pre element inside another, by end or as a unary start |
| Parser.InPreExact | examples/ui/lib/vue.js:9172-9174 | over any run of callbacks `inPre` is right at every point if and only if none of them does that |
| Parser.OutermostFound | examples/ui/lib/vue.js:9136-9150 | the element that carries v-pre is the outermost one whose start callback did, and there is one exactly if there was such a callback |
| Parser.Tokenizer.RightNow | examples/ui/lib/vue.js:9136-9253 | being right after the last callback means that the builder's own flag holds exactly when its stack has a pre element; `inVPre` always holds exactly when some open tag was started with v-pre |
| Parser.UnaryPreClears | examples/ui/lib/vue.js:9234-9239 | a self-closing pre inside a pre element leaves `inPre` off inside a pre element |
| Parser.InnerPreClears | examples/ui/lib/vue.js:9242-9253 | so does the end of a pre element inside another |
| Parser.StartTagCalls | examples/ui/lib/vue.js:8939-8982 | in HTML an innermost p is closed by a tag that is no phrasing content, then a left-open tag of the same name that is innermost by then, nothing else; then the start is called, unary by tag or slash |
| Parser.EndTagCalls | examples/ui/lib/vue.js:8984-9036 | an end tag closes from the innermost open tag of its name on, one callback each, innermost first; without one, `br` is a unary start, `p` a start and an end, any other nothing |
| Parser.TextCalls | examples/ui/lib/vue.js:8856-8887 | the end of a raw text closes just its element, text calls back nothing |
| Parser.ImpliedFits | examples/ui/lib/vue.js:8943-8950 | when what a start tag implies is closed, the tag may be opened: not directly inside a left-open tag of its name, nor, unless phrasing, directly inside a p |
| Parser.TokenFits | examples/ui/lib/vue.js:8785-8909 | so every token keeps every tag where it may be, and opens none elsewhere |
| Parser.Tokenizer.FindOpen | examples/ui/lib/vue.js:8993-9003 | the innermost open tag of the name, or none |
| Parser.Tokenizer.CloseDownTo | examples/ui/lib/vue.js:9005-9023 | one end callback per closed tag, innermost first, with the two stacks equal at every callback |
| Parser.Tokenizer.CallUnmatched | examples/ui/lib/vue.js:9024-9035 | `</br>` and `</p>` that match nothing make a balanced pair of callbacks, any other end tag none |
| Parser.Tokenizer.ParseEndTag | examples/ui/lib/vue.js:8984-9036 | closes exactly from the innermost open tag of the name on, or everything without a name |
| Parser.Tokenizer.ImpliedEnds | examples/ui/lib/vue.js:8943-8950 | a start tag closes an innermost p, exactly if it is no phrasing content, and then one innermost left-open tag of its own name |
| Parser.Tokenizer.HandleStartTag | examples/ui/lib/vue.js:8939-8982 | just the implied ends, then one start callback; the tag is open afterwards unless unary |
| Parser.Tokenizer.Feed | examples/ui/lib/vue.js:8792-8906 | one token makes exactly its callbacks and leaves open exactly what it should; the stacks mirror each other |
| Parser.ClosesIs | examples/ui/lib/vue.js:8993-9003 | the innermost open tag of a name determines what an end tag leaves open |
| Parser.Tokenizer.ParseAll | examples/ui/lib/vue.js:8785-8909 | for every token sequence the callbacks are those of the tokens and the ends of what is left open, well bracketed and all closed; `inVPre` is off; `inPre` was right throughout if and only if no pre element was closed inside another; in HTML only phrasing content was opened directly inside a p, and no left-open tag directly inside one of its name |
| KeepAlive.Refreshed | examples/ui/lib/vue.js:4990-4994 | moving a key to the end is exactly what rendering it again does to recency |
| KeepAlive.Appended | examples/ui/lib/vue.js:4995-5002 | a new key at the end, without the first if there is one too many, is the most recent keys again |
| KeepAlive.KeepAlive.PruneCacheEntry | examples/ui/lib/vue.js:4913-4925 | entry and key are gone; the instance is destroyed unless its tag is what is on the page |
| KeepAlive.KeepAlive.Render | examples/ui/lib/vue.js:4963-5007 | after every render the cache holds exactly the most recently rendered distinct keys, oldest first; a cached instance is shown again |
| KeepAlive.KeepAlive.Store | examples/ui/lib/vue.js:4995-5002 | only the least recently rendered entry can go |
| NormalizeChildren.JoinAssociative | examples/ui/lib/vue.js:2214-2260 | joining texts and nodes does not depend on nesting |
| NormalizeChildren.OfConcat | examples/ui/lib/vue.js:2231-2231 | appending lists joins what they contain |
| NormalizeChildren.Merged | examples/ui/lib/vue.js:2234-2246 | merging a text into a trailing text node keeps all text and creates no neighbouring texts |
| NormalizeChildren.Shifted | examples/ui/lib/vue.js:2227-2230 | moving a first text node over to the list before loses nothing |
| NormalizeChildren.AppendMerged | examples/ui/lib/vue.js:2223-2232 | a normalized nested list joins the result with no text lost and no two texts adjacent |
| NormalizeChildren.LeavesAre | examples/ui/lib/vue.js:2218-2257 | the leaves are exactly the nodes that are no text, wherever they are nested, in the order of their places |
| NormalizeChildren.DefaultKeyInjective | examples/ui/lib/vue.js:2249-2254 | the default keys of two places differ |
| NormalizeChildren.NodesAppear | examples/ui/lib/vue.js:2249-2254 | default keys are set on the elements without a key in nested v-for lists, and on nothing else |
| NormalizeChildren.NormalizeArrayChildren | examples/ui/lib/vue.js:2214-2260 | for any nesting: no two adjacent text nodes, the other nodes in order, the text between them kept, no empty text node from a string; nodes are the leaves as they were, but each element without a key in a nested v-for list has a key of its own; a normal list comes back as it is |
| RingBuffer.Overwritten | agent/buffer/buffer.go:29-35 | overwriting at the index drops the oldest item and appends the new one |
| RingBuffer.Buffer.Insert | agent/buffer/buffer.go:23-36 | for every capacity from 1 to 255 the ring is the last items inserted, with no index wrap-around |
| RingBuffer.Buffer.Size | agent/buffer/buffer.go:38-43 | the number of items kept, which fits 8 bits |
| RingBuffer.Buffer.Collect | agent/buffer/buffer.go:45-50 | the most recent items since the last flush, in order of insertion |
| RingBuffer.Buffer.Flush | agent/buffer/buffer.go:52-58 | nothing is kept |
| Logger.BatchesConserve | agent/logger.go:44-80 | without the capacity limit, batches and what is left unsent are all logs to be forwarded, in order |
| Logger.SentInOrder | agent/logger.go:44-80 | over any run, what is sent is an order-preserving selection of the logs to be forwarded, none twice |
| Logger.OnlyWhatMatters | agent/logger.go:57-64 | outside debug mode only errors, and starts and ends of stages and runs, are ever sent |
| Logger.MattersIsSent | agent/logger.go:57-77 | each of them is in a batch of the next tick, or of quitting, with the agent connected, if it is among the last 255 of them by then |
| Logger.Logger.Handle | agent/logger.go:48-78 | what one event keeps, forwards, sends and flushes |
| Logger.Logger.StartTicker | agent/logger.go:44-80 | each batch is all logs since the last successful flush, cut to the most recent 255; every log is kept in memory |
| Logger.Logger.Report | agent/logger.go:106-116 | the suffix of the kept logs from the first one at or after the requested time |
| Logger.ReportComplete | agent/logger.go:106-116 | it holds every kept log at or after the time, and only those if and only if no later kept log is older |
| Routing.SplitUndoesFrame | agent/zeromq_client.go:128-135 | splitting returns the topic and any payload if and only if the topic has no colon |
| Routing.ReceivesItsTopic | agent/zeromq_client.go:151-160 | a colon-free prefix subscription gets exactly the messages that split to its topic |
| Routing.ReceivesExactly | agent/zeromq_client.go:151-160 | a subscription gets just the frames of its topic, for every payload, if and only if it cannot be confused with the topic of the frames |
| Routing.ColonFreeSeparate | manager/model/request.go:80-86 | a colon-free fleet is separate: no two of its topics can be confused |
| Routing.ColonMisroutes | manager/zeromq/server.go:130-140 | a topic with a colon reaches the subscribers of what is before the colon |
| Routing.PagingEnds | manager/storage/storage.go:399-428 | some page meets the exit test if and only if there are at most 100 hits |
| Routing.ScanPage | manager/storage/storage.go:410-420 | one page adds its hits to list and sets, and fails exactly on an empty highlight |
| Routing.MatchTargets | manager/storage/storage.go:377-437 | for any number of hits, of pages asked for, and any page at which the search fails: finishes exactly with one page of hits or less that arrives, listing all hits and covering each by its first matched tag or its id, without repetition; with more it never finishes; fails exactly on an empty highlight, or with the search if that comes first |
| Routing.TargetTopics | manager/manager.go:127-136 | one topic per id and then one per tag, in order |
| Routing.TopicsApart | manager/model/request.go:80-86 | topics of ids, of tags and the topic for all never coincide, and have a colon only if id or tag has |
| Routing.AllAreReached | agent/agent.go:200-214 | what is published to ALL reaches every agent |
| Routing.ListedIsAsked | manager/storage/storage.go:386-420 | the match list is exactly the targets asked for |
| Routing.ReachedIsListed | agent/agent.go:200-214 | in a separate fleet, whoever receives a frame for one of the topics is in the match list |
| Routing.ListedIsReached | manager/storage/storage.go:410-435 | whoever is in the match list receives a frame, by id or by tag |
| Routing.RoutingIsExact | manager/manager.go:581-611 | in a fleet where whoever has a topic confusable with another one in use has that one as well, an agent is reached if and only if it is in the match list, that is, if and only if it was asked for |
| Routing.RoutingExactly | manager/manager.go:581-611 | only there: announcements reach exactly the match list for all queries and payloads if and only if the fleet is so |
| SendTask.PendingIsNegativeSoFar | manager/manager.go:629-642 | if no query fails, the pending list is the targets in order whose queries have all been negative |
| SendTask.FailedQueryDrops | manager/manager.go:632-636 | a round keeps everyone not known to have received it if and only if no query of the round fails |
| SendTask.AskPending | manager/manager.go:629-642 | the pending targets answered negatively, up to the first query that fails, which is all that is logged; publishes and sleeps nothing |
| SendTask.SendAndWait | manager/manager.go:606-627 | every topic is announced to in order, then a second's pause, the task, and the wait |
| SendTask.SentAmount | manager/manager.go:606-627 | what that publishes and how long it takes |
| SendTask.TracePaused | manager/manager.go:606-619 | before each sending of the task there is a pause of a second, after it one of ten or more |
| SendTask.SendTask | manager/manager.go:579-655 | stops when nobody is pending or after the third attempt; all that is published, slept, logged and reported, in order; sleeps n + 10 n(n+1)/2 seconds, a second of it before each sending; reports exactly the pending lists, the last one as undeliverable |
| Agent.HeardAllSound | agent/agent.go:274-308 | over any sequence of announcements the history has at most 10 entries and accepted types of one id only increase |
| Agent.SubscribedOnce | agent/agent.go:274-308 | between clears the agent subscribes exactly once for each accepted announcement that fits, and no two accepted ones have the same id and type |
| Agent.AcceptedOnce | agent/agent.go:274-308 | between clears an announcement is accepted once among any others if it comes as news, and never otherwise |
| Agent.RecordedGrows | agent/agent.go:290-294 | between clears the recorded type of every id only grows |
| Agent.HeardIsRecorded | agent/agent.go:290-294 | between clears an announcement that was heard is recorded, or one of a greater type |
| Agent.BuildAfterDeployIsDropped | agent/agent.go:276-280 | a build announcement after the deploy announcement of the same id is dropped, whatever came between, unless cleared |
| Agent.ClearForgets | agent/agent.go:290-293 | an announcement that was stale stays so after another one if and only if that does not make the history be cleared, or is of the same id |
| Agent.ForgottenExactly | agent/agent.go:276-294 | after any announcements heard, a stale one is accepted again if and only if they cleared the history and since then none of its id had its type or a greater one |
| Agent.AcceptedAgain | agent/agent.go:276-294 | of two copies in a run the later one is accepted too if and only if those between made it forgotten |
| Agent.SubscribedAgain | agent/agent.go:290-301 | with nine ids recorded, a new id, another new one and the first again make the agent subscribe three times |
| Agent.RepeatsHeardOnce | agent/agent.go:276-280 | any number of repetitions has the effect of one |
| Agent.RepeatsSubscribeOnce | agent/agent.go:300-307 | any number of copies makes the agent subscribe once if it is news that fits, and never otherwise |
| Agent.HeardConcat | agent/agent.go:177-197 | handling a run in two parts is handling it at once |
| Agent.NoStutter | agent/agent.go:184-192 | of equal payloads in a row one is handled, and no other is left out |
| Agent.ForeignIn | agent/agent.go:193-196 | which payloads are taken for tasks: those received on topics that are not the agent's own |
| Agent.ActsAre | agent/agent.go:172-198 | the agent unsubscribes from the task of every payload on a foreign topic, in order and from nothing else, and subscribes to what its announcements call for |
| Agent.ActsConcat | agent/agent.go:172-198 | the operations of a run in two parts are those of the whole |
| Agent.TaskEndsSubscription | agent/agent.go:316-334 | once a task has come in, the last operation on its topic is to unsubscribe, whatever comes later, as long as no greater type is announced and the history is not cleared |
| Agent.Agent.HandleAnnouncement | agent/agent.go:274-308 | history and subscriptions change as hearing one announcement says, stale ones not at all |
| Agent.Agent.HandleRequest | agent/agent.go:250-272 | only announcements touch history and operations |
| Agent.Agent.HandleTask | agent/agent.go:316-334 | the agent stops listening for what it received |
| Agent.Agent.StartWorker | agent/agent.go:172-198 | over any messages, what is handled is the payloads on own topics after runs of equal ones are reduced to one, and what is heard the announcements among them; all operations, in the order of the messages; the last payload on an own topic is remembered; what was handled last would be dropped |
| Agent.WorkerResumes | agent/agent.go:172-198 | two runs of the worker hear and remember what one run over all their messages does |
| Deployment.OwnPayloads | agent/zeromq_client.go:118-136 | whatever else an agent subscribes to, its worker finds on its own topics exactly the payloads whose frames split to one of them |
| Deployment.AllIsARequest | agent/zeromq_client.go:118-136 | what is published to ALL comes in as a request at every agent |
| Deployment.RunFrames | manager/manager.go:603-622 | any number of attempts puts on the wire the announcement for each topic and the task for its own, and nothing else |
| Deployment.RunBrings | manager/zeromq/server.go:130-140 | the announcement gets to an agent's own topics if and only if it is published to one of them |
| Deployment.RunHeard | agent/agent.go:184-192 | the agent hears the announcement if and only if it was published to one of its own topics, unless it was what it heard last |
| Deployment.BroughtIsHeard | agent/agent.go:184-192 | once the announcement was brought to the agent it is recorded, or a greater type |
| Deployment.ReachedOnOwn | agent/agent.go:200-214 | an agent is reached by topics if and only if one of them is its own |
| Deployment.AnnouncedOnce | manager/manager.go:579-655 | with all frames of a run passing by among any other traffic, and no clear, the agent accepts the announcement once if the query asked for it, it is news and nothing overtakes it, else not at all; it subscribes once per accepted announcement that fits |
| Deployment.TaskUnsubscribes | agent/agent.go:316-334 | when the frame of the task has passed while the agent was subscribed to it, its last operation on the topic is to unsubscribe, if no greater type is announced |
| Deployment.Announced | agent/agent.go:172-198 | the same of a running agent whose worker handles what comes in; and once the task itself has come in, its last operation on the task's topic is to unsubscribe |

## Left out

Of the Vue runtime:

- Patch.UpdateChildren: `removeOnly`, used by transition groups, is false; duplicate keys in the new list, which the source only warns of, are excluded; keys are compared as values, not as object properties.
- Patch.PatchVnode: whether two nodes or child lists are the same object is an arbitrary choice, allowed only when they are equal; async placeholders, static trees and hooks are not modelled.
- Patch.PatchRoot: mounting on a server-rendered or real element, hydration, mounting without an old node, unmounting, a leaving transition and the parent placeholders of a component are not modelled.
- Child components, namespaces, scope ids, refs, directives and transitions. Of the module hooks only their joint effect, that the element carries the data of its virtual node, is modelled.
- The `elm` slots of virtual nodes are returned as values of type `Mounted` instead of being assigned; `oldCh` and the filled part of `newCh` are local sequences of slots.
- Document nodes, deps and watchers are entries of a map field named by ids, not objects of their own, so aliasing between them is equality of ids.
- Deep, sync and user watchers, watcher callbacks, child observers and arrays, exceptions in getters, `pushTarget()` without a watcher, and watchers created while another is being evaluated.
- Getters are deterministic, make a bounded number of reads, and read computed properties of lower rank, as acyclic definitions do. Reading a computed property that has not been created is not modelled.
- Reactive.Runtime.Flush: runs queued watchers in any order and to the end; the order of a flush is the subject of `Scheduler`.
- Reactive.Runtime.Update: a watcher is put into a set of queued ones; the queue itself is the subject of `Scheduler`.
- Scheduler.Scheduler.FlushSchedulerQueue: asks that no run queues a lower id and that ids are bounded, as they are for finitely many watchers; otherwise a flush need not end, and `Scheduler.Scheduler.RunNext` says what still holds. `queueWatcher` appears as two methods, one for each value of `flushing`.
- `nextTick`, and the updated and activated hooks after a flush.
- The parser's regular expressions, attributes, text, comments, root constraints and the tree of elements itself; the model starts from tokens. A start tag tells by a flag whether it carries `v-pre`.
- Parser.TreeBuilder.Start: element replacement by pre-transforms is not modelled, since it does not touch the two stacks.
- KeepAlive.KeepAlive.Render: `include` and `exclude`, slots without a component, and the destroyed hook are not modelled; the key is given.
- NormalizeChildren.NormalizeArrayChildren: numbers and other primitives appear as their strings, and a default key is set on a copy of the node instead of the node.

Of the deployment tool:

- RingBuffer.Buffer.Collect: the slice may share memory with the live list; the model states the value at the time of the call. Capacity 0, for which Insert fails, is excluded.
- Routing.MatchTargets: how Elasticsearch analyses, scores and highlights is replaced by `Routing.Answers`.
- Deployment.AnnouncedOnce: asks for colon-free ids and tags, that the agent keeps the subscriptions it started with, and that no other traffic announces the same id and type. Frames lost on the network are those that do not appear among the arrivals; the run itself arrives completely.
- SendTask.SendTask: delivery queries are an arbitrary function of attempt and target; errors in serializing are not modelled, and sleeping and logging are entries of a trace.
- Agent.Agent.StartWorker: each message is handled to its end before the next; interleaving of goroutines is not modelled. Payloads are compared as an injective checksum would, no message has the checksum of sixteen zero bytes, and parsing them is an arbitrary function.
- Agent.Agent.HandleTask: storing artifacts, building, installing and running are not modelled.
- Agent.Agent.HandleAnnouncement: saving the state and reporting stages to the manager are not modelled.
- Logger.Logger.StartTicker: the messages a send produces and `priorityEnqueue`, which bypasses the buffers, are not modelled.
- Orders in two stages (`composeTask`, `processPackage`), validation, registration, keys, tokens, certificates, sockets, JSON and archives are not modelled, since the model has no further properties to state of them.
