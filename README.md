# Artifact content viewer and MD5 group node

This is a Dafny model of two parts of the Autopsy forensic browser.

- **The artifact content viewer** (`DataContentViewerArtifact`). When the user selects a node, the viewer loads the blackboard artifacts of the node's content in a background task. It picks the artifact to show first: the selected artifact, or the artifact that its first "associated artifact" attribute names. It caches the whole list and shows one artifact per page. A page shows the artifact through a known artifact viewer that supports it, or through the default viewer. A new task cancels the task before it; a task whose cancellation took effect never has its result shown.
- **The MD5 group node** (`Md5Node`). It represents the files that share one MD5 hash. It keeps a fixed snapshot of the hash, the file count and the joined data-source names. Its children are built lazily: a leaf when the group has no file instances, otherwise one child per instance, made by a child factory. On an "ADD" notification the node replaces its children. The factory rebuilds its keys on "ADD" and "REMOVE".

Layout:

- `store.dfy` (module `Store`): the outcome of a case-database call (`Fetch`) and `Option`.
- `blackboard.dfy` (module `Blackboard`): artifacts, attributes, a node's lookup, and the pure index logic (`FindById`, `FirstAssociatedId`, `InitialIndex`).
- `artifact_viewer.dfy` (module `ArtifactViewer`):
  - the viewer class with its fields and handlers;
  - the task class with its cancellation flag;
  - both tasks' background computations, each as a specification function, with the node task also as an imperative method.
- `md5_node.dfy` (module `Md5Tree`): the node class, the child factory class, child creation per key, and `String.join`.

How the model treats concurrency and failures:

- **Concurrency is sequential.** Each task has a `cancelled` flag. `CancelObservations` records what `isCancelled()` returned at each checkpoint of the node task. The paging task has one checkpoint, so it takes one boolean. `done()` reads the task's own flag.
- **Case-database failures are data.** A failing call (`TskException`/`TskCoreException`) is a `Failed` value inside the artifact, content or lookup it belongs to.
- **Unchecked exceptions are outcomes.** These are the null cache wrapped by `getArtifactContents()`, and `List.get` out of range. They become `Threw(...)` outcomes of a task, which `done()` logs and otherwise ignores. `NextPage` and `PrevPage` return `ok == false` when their unchecked cache read fails.

## Source behaviour worth noting

- **Empty artifact list.** An empty list gives no error view: `List.get(0)` at DataContentViewerArtifact.java:580 throws, `done()` logs it and the view stays as it was (`SelectedNodeChanged`, `Threw(IndexOutOfBounds)`). The same happens when the lookup holds only artifacts.
- **Error paths before the first load.** The error paths at lines 513 and 526 call `getArtifactContents()`, which throws while the cache is still null. Once a list has been loaded, the error update carries that list's size.
- **Late cancellation.** A cancellation that arrives after the check at line 583 but before `doInBackground` returns at line 590 still lets the cache be swapped, and `done()` then shows nothing, so the screen and the cache disagree. `CancelAfterLastCheckpoint` exhibits this.
- **Cancelling a finished task fails.** `cancel(false)` at line 459 does nothing once `doInBackground` has returned. A node selected after the previous load returned but before its `done()` ran therefore has the previous node's artifact shown (`FinishedLoadShownAfterReselection`).
- **Viewer choice.** `getSupportingViewer` uses `findAny` (line 379), so `GetSupportingViewer` promises only some supporting viewer.
- **Fast repeated clicks.** The page buttons are not updated until the paging task's `done()`. Two quick clicks on "next" can therefore move past the last page, and the cache read then throws. `NextPage`'s contract shows this: the click is safe when the button was enabled in a state satisfying `PagingSound`, and the click itself moves the page without touching the buttons.

## Model

| member | source | states |
|---|---|---|
| Blackboard.FirstArtifact | Core/src/org/sleuthkit/autopsy/corecomponents/DataContentViewerArtifact.java:544 | the artifact the lookup yields is the first artifact item; none exactly when the lookup holds no artifact |
| Blackboard.FetchArtifacts | Core/src/org/sleuthkit/autopsy/corecomponents/DataContentViewerArtifact.java:510-529 | the list loaded is `getAllArtifacts()` of the first non-artifact content (success or failure), and the empty list when every item is an artifact |
| Blackboard.FindById | Core/src/org/sleuthkit/autopsy/corecomponents/DataContentViewerArtifact.java:545-549 | `indexOf` gives the first position holding the id, and -1 exactly when no artifact has it |
| Blackboard.FirstAssociatedId | Core/src/org/sleuthkit/autopsy/corecomponents/DataContentViewerArtifact.java:552-566 | only the first associated-artifact attribute counts: its value, and none exactly when there is no such attribute |
| Blackboard.AssociatedId | Core/src/org/sleuthkit/autopsy/corecomponents/DataContentViewerArtifact.java:551-570 | some id exactly when the attributes were read and one has the associated-artifact type; it is the value of the first such attribute |
| Blackboard.InitialIndex | Core/src/org/sleuthkit/autopsy/corecomponents/DataContentViewerArtifact.java:543-573 | 0 when there is no selected artifact or it is not in the list. Otherwise it is the first position of the associated artifact when that id is in the list, else the selected artifact's first position. A failure to read attributes keeps the selected position. The index is within a non-empty list |
| ArtifactViewer.GetSupportingViewer | Core/src/org/sleuthkit/autopsy/corecomponents/DataContentViewerArtifact.java:375-382 | a known viewer that supports the artifact when one does, the default viewer when none does; no promise of the first match |
| ArtifactViewer.IsPreferred | Core/src/org/sleuthkit/autopsy/corecomponents/DataContentViewerArtifact.java:356-373 | 3 exactly when the node has no artifact or its first artifact has one of the six file-first types, otherwise 6 |
| ArtifactViewer.IsSupported | Core/src/org/sleuthkit/autopsy/corecomponents/DataContentViewerArtifact.java:338-354 | false for no node. Otherwise true exactly when the first non-artifact content whose count query succeeds has a positive count. Failing queries are skipped; false when none succeeds |
| ArtifactViewer.ChooseIndex | Core/src/org/sleuthkit/autopsy/corecomponents/DataContentViewerArtifact.java:541-573 | the loops over the attributes and the artifacts compute exactly `InitialIndex`, a position within a non-empty list |
| ArtifactViewer.SelectedNodeChanged | Core/src/org/sleuthkit/autopsy/corecomponents/DataContentViewerArtifact.java:504-591 | the cache is only replaced wholesale by the loaded list, together with a shown update. No content or a failed fetch gives an error update with the old cache size and page (or the null-cache exception) and leaves the cache. A cancellation seen at a checkpoint publishes nothing and keeps the cache. An empty list throws. A successful load has pages == size, page == index+1 within 1..size, and shows list[page-1] |
| ArtifactViewer.SelectedArtifactChanged | Core/src/org/sleuthkit/autopsy/corecomponents/DataContentViewerArtifact.java:621-634 | reads only the cache. It publishes exactly when the cache exists, the task is not cancelled and the page is in range, and then shows (size, page, cache[page-1]). A null cache throws and a cancelled task returns null |
| ArtifactViewer.PagingAgreesWithLoad | Core/src/org/sleuthkit/autopsy/corecomponents/DataContentViewerArtifact.java:622-634 | the page a load shows is exactly what the paging task shows for that page over the new cache (cache index i is page i+1) |
| ArtifactViewer.ViewTask.constructor | Core/src/org/sleuthkit/autopsy/corecomponents/DataContentViewerArtifact.java:499-501 | a new task of the given kind is neither cancelled nor finished |
| ArtifactViewer.ViewTask.Cancel | Core/src/org/sleuthkit/autopsy/corecomponents/DataContentViewerArtifact.java:457-459 | cancelling sets the flag unless the background step has already returned, in which case the flag is unchanged |
| ArtifactViewer.ViewTask.Finish | Core/src/org/sleuthkit/autopsy/corecomponents/DataContentViewerArtifact.java:590 | once the background step has returned the task counts as finished |
| ArtifactViewer.DataContentViewerArtifact.constructor | Core/src/org/sleuthkit/autopsy/corecomponents/DataContentViewerArtifact.java:82-87 | a new viewer is in the reset state, with a null cache and no task |
| ArtifactViewer.DataContentViewerArtifact.ResetComponents | Core/src/org/sleuthkit/autopsy/corecomponents/DataContentViewerArtifact.java:278-289 | page 1, empty labels, both buttons disabled, no current node, empty panel |
| ArtifactViewer.DataContentViewerArtifact.SetNode | Core/src/org/sleuthkit/autopsy/corecomponents/DataContentViewerArtifact.java:291-311 | the same node again changes nothing. Any other node is recorded. A task is started, and the old one cancelled, only for a node whose lookup holds content |
| ArtifactViewer.DataContentViewerArtifact.StartNewTask | Core/src/org/sleuthkit/autopsy/corecomponents/DataContentViewerArtifact.java:453-465 | cancel is called on the previous task (which takes effect only if it had not finished) and the new task becomes current |
| ArtifactViewer.DataContentViewerArtifact.SetArtifactContents | Core/src/org/sleuthkit/autopsy/corecomponents/DataContentViewerArtifact.java:473-477 | the cache becomes the given list |
| ArtifactViewer.DataContentViewerArtifact.UpdateView | Core/src/org/sleuthkit/autopsy/corecomponents/DataContentViewerArtifact.java:417-445 | next enabled iff current < total, prev enabled iff current > 1, page from the update. The panel is cleared. It holds exactly one component (a supporting or the default viewer, on the artifact) when an artifact is shown. With an error it holds none and the label shows the message |
| ArtifactViewer.DataContentViewerArtifact.RenderedFitIsSound | Core/src/org/sleuthkit/autopsy/corecomponents/DataContentViewerArtifact.java:420-421 | after an update that fits the cache, every enabled page button leads to a page the cache holds |
| ArtifactViewer.DataContentViewerArtifact.Done | Core/src/org/sleuthkit/autopsy/corecomponents/DataContentViewerArtifact.java:593-605 | the view changes only for a task that is not cancelled and returned an update, and then shows exactly that update |
| ArtifactViewer.DataContentViewerArtifact.SelectedNodeChangedInBackground | Core/src/org/sleuthkit/autopsy/corecomponents/DataContentViewerArtifact.java:504-591 | the imperative task computes exactly the result and the cache of `SelectedNodeChanged` |
| ArtifactViewer.DataContentViewerArtifact.NextPage | Core/src/org/sleuthkit/autopsy/corecomponents/DataContentViewerArtifact.java:245-250 | the page goes up by exactly one. A paging task for the new page starts (cancelling the old) exactly when the cache holds that page. It does when the button was enabled in a sound state; otherwise the read throws and no task starts |
| ArtifactViewer.DataContentViewerArtifact.PrevPage | Core/src/org/sleuthkit/autopsy/corecomponents/DataContentViewerArtifact.java:252-257 | the page goes down by exactly one, otherwise as for the next page |
| ArtifactViewer.SelectionSupersedesLoad | Core/src/org/sleuthkit/autopsy/corecomponents/DataContentViewerArtifact.java:594-605 | when a second node is selected before the first selection's load has returned, that load's completion never changes the view, whatever it computed |
| ArtifactViewer.FinishedLoadShownAfterReselection | Core/src/org/sleuthkit/autopsy/corecomponents/DataContentViewerArtifact.java:457-459 | when the second node is selected after the first load returned, the failed cancel lets the first load's `done()` show the first node's artifact and leaves its list in the cache |
| ArtifactViewer.CancelAfterLastCheckpoint | Core/src/org/sleuthkit/autopsy/corecomponents/DataContentViewerArtifact.java:583-588 | a cancellation after the last checkpoint but before the background step returns still leaves the new list in the cache, while the view stays unchanged |
| Md5Tree.CreateNodeForKey | Core/src/org/sleuthkit/autopsy/datamodel/Md5Node.java:170-182 | no node when there is no open case or the query fails. A node (for a file the query returned, with the instance's data source) exactly when the query returns files |
| Md5Tree.ChildNodes | Core/src/org/sleuthkit/autopsy/datamodel/Md5Node.java:170-182 | none exactly when some key's node creation throws. Otherwise at most one child per key, each the node created for one of the keys |
| Md5Tree.ChildNodesAppend | Core/src/org/sleuthkit/autopsy/datamodel/Md5Node.java:170-188 | the children of consecutive keys are the concatenation of each key's children |
| Md5Tree.SkipUnresolvedKey | Core/src/org/sleuthkit/autopsy/datamodel/Md5Node.java:178-181 | a key whose file cannot be resolved contributes no child and the other keys' children are unchanged |
| Md5Tree.AllKeysResolved | Core/src/org/sleuthkit/autopsy/datamodel/Md5Node.java:171-177 | when every key resolves there is one child per key, in key order |
| Md5Tree.Join | Core/src/org/sleuthkit/autopsy/datamodel/Md5Node.java:64 | no parts join to the empty string. Otherwise the result starts with the first part and is at least as long as every part |
| Md5Tree.JoinLength | Core/src/org/sleuthkit/autopsy/datamodel/Md5Node.java:64 | the joined data sources are the parts plus one separator between each two |
| Md5Tree.JoinEnds | Core/src/org/sleuthkit/autopsy/datamodel/Md5Node.java:64 | the joined string starts with the first data source and ends with the last |
| Md5Tree.ChildCallable | Core/src/org/sleuthkit/autopsy/datamodel/Md5Node.java:80-89 | a leaf exactly when the group has no file instances, else a new factory over the group |
| Md5Tree.FileInstanceNodeFactory.constructor | Core/src/org/sleuthkit/autopsy/datamodel/Md5Node.java:165-168 | the factory works over the given group and has no keys yet |
| Md5Tree.FileInstanceNodeFactory.CreateKeys | Core/src/org/sleuthkit/autopsy/datamodel/Md5Node.java:184-188 | the list becomes its old contents followed by every file instance in order (longer by exactly their number), and the result is true |
| Md5Tree.FileInstanceNodeFactory.Refresh | Core/src/org/sleuthkit/autopsy/datamodel/Md5Node.java:193 | the keys become exactly the current file instances, whatever they were before, so a repeated refresh adds no duplicates |
| Md5Tree.FileInstanceNodeFactory.PropertyChange | Core/src/org/sleuthkit/autopsy/datamodel/Md5Node.java:190-195 | refreshes exactly on "ADD" or "REMOVE", otherwise keeps its keys |
| Md5Tree.Md5Node.constructor | Core/src/org/sleuthkit/autopsy/datamodel/Md5Node.java:59-69 | count == metadata size, data sources == join(", ", sources), hash and display name == the MD5, lazy children; the snapshot is recorded |
| Md5Tree.Md5Node.GetCommonFileCount | Core/src/org/sleuthkit/autopsy/datamodel/Md5Node.java:98-100 | the group's size when the node was made, whatever the metadata holds later |
| Md5Tree.Md5Node.GetDataSources | Core/src/org/sleuthkit/autopsy/datamodel/Md5Node.java:102-104 | the data sources the group had when the node was made, joined by ", " and starting with the first |
| Md5Tree.Md5Node.GetMd5 | Core/src/org/sleuthkit/autopsy/datamodel/Md5Node.java:106-108 | the group's hash when the node was made |
| Md5Tree.Md5Node.IsLeafTypeNode | Core/src/org/sleuthkit/autopsy/datamodel/Md5Node.java:148-151 | never a leaf-type node |
| Md5Tree.Md5Node.Expand | Core/src/org/sleuthkit/autopsy/datamodel/Md5Node.java:60 | the first request for the children runs the lazy decision once; later requests keep what it built |
| Md5Tree.Md5Node.PropertyChange | Core/src/org/sleuthkit/autopsy/datamodel/Md5Node.java:92-96 | "ADD" replaces the children with a new factory over the group's metadata; every other event leaves them |
| Md5Tree.FillPropertyMap | Core/src/org/sleuthkit/autopsy/datamodel/Md5Node.java:138-141 | adds the node's data sources under "Data Source" and keeps every other entry. From an empty map, that is the only entry |

## Left out

- Swing layout, icons, the cursor, `revalidate`, title and tooltip, and bundle strings. The error text is named by its bundle key. The page labels are modelled as the numbers they display.
- Threads, `synchronized`/`lock` and event-dispatch-thread scheduling. Task execution is not modelled. The node task's background step is a method, the paging task's background step is the function `SelectedArtifactChanged`, and `done()` is a method; the caller runs them in any order it chooses, and marks a task finished (`Finish`) when its background step has returned. Interleavings inside a step are represented only by the cancellation observations.
- `SwingWorker` states other than finished/not finished (pending, started) are not modelled; `Cancel` fails exactly on a finished task.
- ArtifactViewer.IsPreferred: takes a node, not a possibly null one. The source dereferences `node` at line 358 without a null check, so `isPreferred(null)` throws; that case is not modelled.
- The case database (`getAllArtifacts`, `getAllArtifactsCount`, `getAttributes`, `Case.getCurrentCaseThrows`, `findAllFilesWhere`). These become data or parameters that carry success or failure.
- The contact and call-log viewers' `isSupported`/`setArtifact` and the default viewer. `isSupported` is a parameter of the viewer. `setArtifact` is represented by the panel component recording the artifact.
- `BlackboardArtifact.equals` is not part of this model. It is taken to compare artifact ids.
- NetBeans `Lookup`, `Children.createLazy`, `Children.create`, `setChildren`, the `ChildFactory` bookkeeping of keys and nodes, `Sheet`/`NodeProperty` construction, and the visitor `accept`. Children are `Lazy | Leaf | Built(factory)`. A factory's keys stay `None` until computed, and `ChildNodes` maps keys to child nodes. A `createNodeForKey` exception that the source does not catch (an empty query result) makes `ChildNodes` give `None`. What the framework does with such an exception is not modelled.
- `Md5Metadata` is not part of this model. It is a class with the fields its getters return. Its listener registration and event dispatch are left out, so the caller invokes each `propertyChange` directly.
- The getters `getCommonFileCount`, `getDataSources` and `getMd5` return `const` fields, so that the snapshot does not change on "ADD" holds by construction; their contracts relate the result to ghost copies of what the metadata held at construction.
- Logging.
