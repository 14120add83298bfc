/** The artifact content viewer: a cache of the selected content's artifacts,
    a 1-based current page, prev/next buttons, a panel holding the viewer of the
    shown artifact, and background tasks that can be cancelled. */
module ArtifactViewer {
  import opened Store
  import opened Blackboard

  /** The artifact-specific viewers. `DefaultViewer` is the fallback. */
  datatype Viewer = ContactViewer | CallLogViewer | DefaultViewer

  /** `KNOWN_ARTIFACT_VIEWERS`, in registration order. */
  const KnownViewers: seq<Viewer> := [ContactViewer, CallLogViewer]

  /** `getSupportingViewer`: some known viewer whose own `isSupported` accepts
      the artifact, else the default viewer. The source picks with `findAny`,
      so which of several supporting viewers is chosen is not promised. */
  function GetSupportingViewer(known: seq<Viewer>, isSupported: (Viewer, Artifact) -> bool, artifact: Artifact): (v: Viewer)
    ensures (exists w :: w in known && isSupported(w, artifact)) ==> v in known && isSupported(v, artifact)
    ensures (forall w :: w in known ==> !isSupported(w, artifact)) ==> v == DefaultViewer
  {
    if known == [] then DefaultViewer
    else if isSupported(known[0], artifact) then known[0]
    else
      assert forall w :: w in known && w != known[0] ==> w in known[1..];
      GetSupportingViewer(known[1..], isSupported, artifact)
  }

  /** The types for which the original file, not the artifact, is what the user wants to see. */
  predicate ShowsFileFirst(t: ArtifactType)
  {
    t in {HashsetHit, KeywordHit, InterestingFileHit, ObjectDetected, MetadataExif, ExtMismatchDetected}
  }

  /** `isPreferred`: 3 (low) when the node has no artifact or its artifact is of
      one of the six file-first types, 6 otherwise. */
  function IsPreferred(node: Node): (r: int)
    ensures r == 3 || r == 6
    ensures r == 3 <==>
      (forall k :: 0 <= k < |node.contents| ==> node.contents[k].ContentItem?) ||
      (exists i :: 0 <= i < |node.contents| && node.contents[i].ArtifactItem? &&
        ShowsFileFirst(node.contents[i].artifact.artifactType) &&
        forall k :: 0 <= k < i ==> node.contents[k].ContentItem?)
  {
    var artifact := FirstArtifact(node.contents);
    if artifact.None? || ShowsFileFirst(artifact.value.artifactType) then 3 else 6
  }

  /** `i` holds the first non-artifact content whose count query succeeded. */
  ghost predicate FirstCountedAt(items: seq<LookupItem>, i: int)
  {
    0 <= i < |items| && items[i].ContentItem? && items[i].content.allArtifactsCount.Ok? &&
    forall k :: 0 <= k < i ==> items[k].ContentItem? ==> items[k].content.allArtifactsCount.Failed?
  }

  /** `isSupported`: false for no node; otherwise whether the first non-artifact
      content whose count query succeeds has a positive count, and false when
      there is none. A failing count query is logged and the next content tried. */
  method IsSupported(node: Option<Node>) returns (r: bool)
    ensures r <==> (node.Some? &&
      exists i :: FirstCountedAt(node.value.contents, i) && node.value.contents[i].content.allArtifactsCount.value > 0)
  {
    if node.None? {
      return false;
    }
    var contents := node.value.contents;
    for i := 0 to |contents|
      invariant forall k :: 0 <= k < i ==> contents[k].ContentItem? ==> contents[k].content.allArtifactsCount.Failed?
    {
      if contents[i].ContentItem? {
        match contents[i].content.allArtifactsCount {
          case Ok(count) =>
            assert FirstCountedAt(contents, i);
            forall j | FirstCountedAt(contents, j) ensures j == i { }
            return count > 0;
          case Failed =>
        }
      }
    }
    return false;
  }

  /** What a view update displays: an artifact, or the text of an error. */
  datatype Display = ShowArtifact(artifact: Artifact) | ShowError(message: string)

  /** `ViewUpdate`: exactly one of artifact and error message is set. */
  datatype ViewUpdate = ViewUpdate(numberOfPages: int, currentPage: int, display: Display)

  /** `ERROR_TEXT`; its localized wording lives in a resource bundle that is not part of this model. */
  const ErrorText: string := "DataContentViewerArtifact.errorText"

  /** The unchecked exceptions a task's `doInBackground` can throw: wrapping the
      cache before the first load (null list), and `List.get` out of range. */
  datatype Fault = NullCache | IndexOutOfBounds

  /** The outcome of a task's `doInBackground`: the value it returned (null after
      a cancellation checkpoint) or the exception it threw. */
  datatype TaskResult = Returned(update: Option<ViewUpdate>) | Threw(fault: Fault)

  predicate CarriesUpdate(r: TaskResult)
  {
    r.Returned? && r.update.Some?
  }

  /** What `isCancelled()` returned at each checkpoint of the node task: after
      the fetch (line 531), after choosing the index (line 575) and before
      replacing the cache (line 583). */
  datatype CancelObservations = CancelObservations(afterFetch: bool, afterIndex: bool, beforeSwap: bool)
  {
    predicate Any() { afterFetch || afterIndex || beforeSwap }
  }

  /** The error update built from `getArtifactContents()` (which fails while the
      cache is still null) and the current page. */
  function ErrorUpdate(cache: Option<seq<Artifact>>, page: int): TaskResult
  {
    match cache
    case None => Threw(NullCache)
    case Some(artifacts) => Returned(Some(ViewUpdate(|artifacts|, page, ShowError(ErrorText))))
  }

  /** The result of the node task and the cache it leaves behind. */
  datatype LoadOutcome = LoadOutcome(result: TaskResult, cache: Option<seq<Artifact>>)

  /** `SelectedNodeChangedTask.doInBackground` as a function of the node, the
      cache and current page it reads, and the cancellation checks. */
  function SelectedNodeChanged(node: Node, cache: Option<seq<Artifact>>, page: int, seen: CancelObservations): (r: LoadOutcome)
    // the cache is only ever replaced wholesale, by the list whose update is returned
    ensures r.cache == cache || (CarriesUpdate(r.result) && FetchArtifacts(node.contents).Ok? &&
      r.cache == Some(FetchArtifacts(node.contents).value))
    // no content, or the first non-artifact content's query failing: an error update over the old cache
    ensures node.contents == [] || FetchArtifacts(node.contents).Failed? ==>
      r.cache == cache &&
      (cache.None? ==> r.result == Threw(NullCache)) &&
      (cache.Some? ==> r.result == Returned(Some(ViewUpdate(|cache.value|, page, ShowError(ErrorText)))))
    // a cancellation seen at a checkpoint after a successful fetch: nothing is published and the cache is kept
    ensures node.contents != [] && FetchArtifacts(node.contents).Ok? && seen.Any() ==>
      r.cache == cache && !CarriesUpdate(r.result)
    ensures node.contents != [] && FetchArtifacts(node.contents).Ok? && seen.afterFetch ==> r.result == Returned(None)
    // an empty artifact list fails at List.get(0), leaving the cache alone
    ensures node.contents != [] && FetchArtifacts(node.contents) == Ok([]) && !seen.afterFetch && !seen.afterIndex ==>
      r == LoadOutcome(Threw(IndexOutOfBounds), cache)
    // a successful load
    ensures node.contents != [] && FetchArtifacts(node.contents).Ok? && |FetchArtifacts(node.contents).value| > 0 && !seen.Any() ==>
      var artifacts := FetchArtifacts(node.contents).value;
      CarriesUpdate(r.result) && r.cache == Some(artifacts) &&
      var u := r.result.update.value;
      u.numberOfPages == |artifacts| && 1 <= u.currentPage <= |artifacts| &&
      u.currentPage == InitialIndex(artifacts, FirstArtifact(node.contents)) + 1 &&
      u.display == ShowArtifact(artifacts[u.currentPage - 1])
  {
    if node.contents == [] then LoadOutcome(ErrorUpdate(cache, page), cache)
    else match FetchArtifacts(node.contents)
      case Failed => LoadOutcome(ErrorUpdate(cache, page), cache)
      case Ok(artifacts) =>
        if seen.afterFetch then LoadOutcome(Returned(None), cache)
        else
          var index := InitialIndex(artifacts, FirstArtifact(node.contents));
          if seen.afterIndex then LoadOutcome(Returned(None), cache)
          else if index >= |artifacts| then LoadOutcome(Threw(IndexOutOfBounds), cache)
          else if seen.beforeSwap then LoadOutcome(Returned(None), cache)
          else LoadOutcome(Returned(Some(ViewUpdate(|artifacts|, index + 1, ShowArtifact(artifacts[index])))), Some(artifacts))
  }

  /** `SelectedArtifactChangedTask.doInBackground`: reads page `pageIndex` from
      the cache alone (no case-database access). */
  function SelectedArtifactChanged(cache: Option<seq<Artifact>>, pageIndex: int, cancelled: bool): (r: TaskResult)
    ensures CarriesUpdate(r) <==> cache.Some? && !cancelled && 1 <= pageIndex <= |cache.value|
    ensures CarriesUpdate(r) ==>
      r.update.value == ViewUpdate(|cache.value|, pageIndex, ShowArtifact(cache.value[pageIndex - 1]))
    ensures cache.None? ==> r == Threw(NullCache)
    ensures cache.Some? && cancelled ==> r == Returned(None)
  {
    match cache
    case None => Threw(NullCache)
    case Some(artifacts) =>
      if cancelled then Returned(None)
      else if 1 <= pageIndex <= |artifacts| then
        Returned(Some(ViewUpdate(|artifacts|, pageIndex, ShowArtifact(artifacts[pageIndex - 1]))))
      else Threw(IndexOutOfBounds)
  }

  /** A page shown after a load is the page the paging task would show for the
      same number over the new cache: cache index i is page i + 1. */
  lemma PagingAgreesWithLoad(node: Node, cache: Option<seq<Artifact>>, page: int, seen: CancelObservations)
    requires CarriesUpdate(SelectedNodeChanged(node, cache, page, seen).result)
    requires SelectedNodeChanged(node, cache, page, seen).result.update.value.display.ShowArtifact?
    ensures var r := SelectedNodeChanged(node, cache, page, seen);
      SelectedArtifactChanged(r.cache, r.result.update.value.currentPage, false) == r.result
  {
  }

  /** The index search of the node task: the selected artifact's position, or
      the position of the artifact its first associated-artifact attribute
      names when that one is in the list; 0 when the selection is not in it. */
  method ChooseIndex(artifacts: seq<Artifact>, selected: Option<Artifact>) returns (index: int)
    ensures index == InitialIndex(artifacts, selected)
    ensures |artifacts| > 0 ==> 0 <= index < |artifacts|
  {
    index := 0;
    if selected.Some? {
      index := FindById(artifacts, selected.value.artifactId);
      if index == -1 {
        index := 0;
      } else {
        match selected.value.attributes {
          case Failed =>
            // logged as a warning; the selected artifact's index is kept
          case Ok(attributes) =>
            var a := 0;
            while a < |attributes|
              invariant 0 <= a <= |attributes|
              invariant forall k :: 0 <= k < a ==> attributes[k].attributeType != AssociatedArtifact
              invariant index == FindById(artifacts, selected.value.artifactId)
            {
              if attributes[a].attributeType == AssociatedArtifact {
                var assocArtifactId := attributes[a].valueLong;
                var assocArtifactIndex := -1;
                var b := 0;
                while b < |artifacts|
                  invariant 0 <= b <= |artifacts|
                  invariant forall k :: 0 <= k < b ==> artifacts[k].artifactId != assocArtifactId
                {
                  if assocArtifactId == artifacts[b].artifactId {
                    assocArtifactIndex := FindById(artifacts, artifacts[b].artifactId);
                    break;
                  }
                  b := b + 1;
                }
                assert assocArtifactIndex == FindById(artifacts, assocArtifactId);
                assert AssociatedId(selected.value) == Some(assocArtifactId);
                if assocArtifactIndex >= 0 {
                  index := assocArtifactIndex;
                }
                break;
              }
              a := a + 1;
            }
        }
      }
    }
  }

  /** What the task was started for. */
  datatype TaskKind = SelectedNodeChangedTask(node: Node) | SelectedArtifactChangedTask(pageIndex: int)

  /** A background task (a `SwingWorker`): its cancellation flag, and whether
      its `doInBackground` has returned. */
  class ViewTask {
    const kind: TaskKind
    var cancelled: bool
    var finished: bool

    constructor (kind: TaskKind)
      ensures this.kind == kind && !cancelled && !finished
    {
      this.kind := kind;
      cancelled := false;
      finished := false;
    }

    /** `cancel(false)`: sets the flag unless the background work has already
        returned, in which case the call fails and the flag stays as it was.
        The background work is not stopped. */
    method Cancel()
      modifies this`cancelled
      ensures cancelled == (old(cancelled) || !finished)
    {
      if !finished {
        cancelled := true;
      }
    }

    /** `doInBackground` has returned: from now on cancelling fails. */
    method Finish()
      modifies this`finished
      ensures finished
    {
      finished := true;
    }
  }

  /** One component in the artifact content panel: a viewer showing an artifact. */
  datatype Component = ViewerComponent(viewer: Viewer, artifact: Artifact)

  /** The widget state of the viewer. A page label of `None` is an empty label. */
  datatype ViewFields = ViewFields(
    currentPage: int,
    nextPageEnabled: bool,
    prevPageEnabled: bool,
    currentPageLabel: Option<int>,
    totalPageLabel: Option<int>,
    artifactLabel: string,
    panel: seq<Component>)

  class DataContentViewerArtifact {
    /** The known viewers' own `isSupported`, which is not part of this model. */
    const viewerSupports: (Viewer, Artifact) -> bool

    var currentNode: Option<Node>
    var currentPage: int
    /** `artifactTableContents`; `None` is the null list before the first load. */
    var artifactTableContents: Option<seq<Artifact>>
    var currentTask: ViewTask?

    var nextPageEnabled: bool
    var prevPageEnabled: bool
    var currentPageLabel: Option<int>
    var totalPageLabel: Option<int>
    var artifactLabel: string
    var artifactContentPanel: seq<Component>

    ghost function View(): ViewFields
      reads this
    {
      ViewFields(currentPage, nextPageEnabled, prevPageEnabled, currentPageLabel, totalPageLabel,
        artifactLabel, artifactContentPanel)
    }

    /** The panel contents for a display: the supporting viewer for an artifact, nothing for an error. */
    function PanelFor(display: Display): seq<Component>
    {
      match display
      case ShowArtifact(a) => [ViewerComponent(GetSupportingViewer(KnownViewers, viewerSupports, a), a)]
      case ShowError(_) => []
    }

    /** The widget state `updateView(u)` produces. */
    function Rendered(u: ViewUpdate): ViewFields
    {
      ViewFields(u.currentPage, u.currentPage < u.numberOfPages, u.currentPage > 1,
        Some(u.currentPage), Some(u.numberOfPages),
        match u.display { case ShowArtifact(a) => a.displayName case ShowError(m) => m },
        PanelFor(u.display))
    }

    /** The enabled page buttons lead to pages the cache holds. */
    ghost predicate PagingSound()
      reads this
    {
      (nextPageEnabled ==> artifactTableContents.Some? && 0 <= currentPage < |artifactTableContents.value|) &&
      (prevPageEnabled ==> artifactTableContents.Some? && 2 <= currentPage <= |artifactTableContents.value| + 1)
    }

    constructor (viewerSupports: (Viewer, Artifact) -> bool)
      ensures this.viewerSupports == viewerSupports
      ensures View() == ViewFields(1, false, false, None, None, "", [])
      ensures currentNode.None? && artifactTableContents.None? && currentTask == null
      ensures PagingSound()
    {
      this.viewerSupports := viewerSupports;
      artifactTableContents := None;
      currentTask := null;
      new;
      ResetComponents();
    }

    /** `resetComponents`: page 1, empty labels, both buttons off, no current node, empty panel. */
    method ResetComponents()
      modifies this`currentPage, this`currentPageLabel, this`totalPageLabel, this`artifactLabel
      modifies this`prevPageEnabled, this`nextPageEnabled, this`currentNode, this`artifactContentPanel
      ensures View() == ViewFields(1, false, false, None, None, "", [])
      ensures currentNode.None?
      ensures PagingSound()
    {
      currentPage := 1;
      currentPageLabel := None;
      artifactLabel := "";
      totalPageLabel := None;
      prevPageEnabled := false;
      nextPageEnabled := false;
      currentNode := None;
      artifactContentPanel := [];
    }

    /** `setNode`: ignores the node already shown; records any other node and
        starts a load only for a node whose lookup holds some content. */
    method SetNode(selectedNode: Option<Node>)
      modifies this`currentNode, this`currentTask, {currentTask}`cancelled
      ensures selectedNode == old(currentNode) ==> currentNode == old(currentNode) && currentTask == old(currentTask)
      ensures currentNode == selectedNode
      ensures selectedNode != old(currentNode) && selectedNode.Some? && selectedNode.value.contents != [] ==>
        currentTask != null && fresh(currentTask) && !currentTask.cancelled && !currentTask.finished &&
        currentTask.kind == SelectedNodeChangedTask(selectedNode.value) &&
        (old(currentTask) != null ==>
          old(currentTask).cancelled == (old(currentTask.cancelled) || !old(currentTask.finished)))
      ensures selectedNode.None? || selectedNode.value.contents == [] ==> currentTask == old(currentTask)
      ensures currentTask == old(currentTask) && old(currentTask) != null ==>
        old(currentTask).cancelled == old(currentTask.cancelled)
    {
      if currentNode == selectedNode {
        return;
      }
      currentNode := selectedNode;
      if selectedNode.None? {
        return;
      }
      // lookup(Content.class) is null exactly when the lookup holds no content
      if selectedNode.value.contents == [] {
        return;
      }
      var task := new ViewTask(SelectedNodeChangedTask(selectedNode.value));
      StartNewTask(task);
    }

    /** `startNewTask`: cancels the task in the slot and makes `task` current. */
    method StartNewTask(task: ViewTask)
      modifies this`currentTask, {currentTask}`cancelled
      ensures currentTask == task
      ensures old(currentTask) != null ==>
        old(currentTask).cancelled == (old(currentTask.cancelled) || !old(currentTask.finished))
      ensures task != old(currentTask) ==> task.cancelled == old(task.cancelled)
    {
      if currentTask != null {
        currentTask.Cancel();
      }
      currentTask := task;
    }

    /** `setArtifactContents`: replaces the cache wholesale. */
    method SetArtifactContents(artifactList: seq<Artifact>)
      modifies this`artifactTableContents
      ensures artifactTableContents == Some(artifactList)
    {
      artifactTableContents := Some(artifactList);
    }

    /** `updateView`: buttons and page from the update, then the panel is
        cleared and gets the supporting viewer of the artifact, or nothing and
        the error text in the label. */
    method UpdateView(viewUpdate: ViewUpdate)
      modifies this`nextPageEnabled, this`prevPageEnabled, this`currentPage, this`totalPageLabel
      modifies this`currentPageLabel, this`artifactLabel, this`artifactContentPanel
      ensures View() == Rendered(viewUpdate)
      ensures nextPageEnabled <==> viewUpdate.currentPage < viewUpdate.numberOfPages
      ensures prevPageEnabled <==> viewUpdate.currentPage > 1
      ensures |artifactContentPanel| == 1 <==> viewUpdate.display.ShowArtifact?
      ensures viewUpdate.display.ShowArtifact? ==>
        artifactContentPanel[0].artifact == viewUpdate.display.artifact &&
        (artifactContentPanel[0].viewer == DefaultViewer ||
         viewerSupports(artifactContentPanel[0].viewer, viewUpdate.display.artifact))
      ensures viewUpdate.display.ShowError? ==>
        artifactContentPanel == [] && artifactLabel == viewUpdate.display.message
    {
      nextPageEnabled := viewUpdate.currentPage < viewUpdate.numberOfPages;
      prevPageEnabled := viewUpdate.currentPage > 1;
      currentPage := viewUpdate.currentPage;
      totalPageLabel := Some(viewUpdate.numberOfPages);
      currentPageLabel := Some(currentPage);
      artifactContentPanel := [];
      match viewUpdate.display {
        case ShowArtifact(artifact) =>
          artifactLabel := artifact.displayName;
          var viewer := GetSupportingViewer(KnownViewers, viewerSupports, artifact);
          artifactContentPanel := artifactContentPanel + [ViewerComponent(viewer, artifact)];
        case ShowError(message) =>
          artifactLabel := message;
      }
    }

    /** An update that fits the cache leaves the page buttons sound. */
    lemma RenderedFitIsSound(u: ViewUpdate)
      requires View() == Rendered(u)
      requires artifactTableContents.Some? && u.numberOfPages == |artifactTableContents.value|
      requires 1 <= u.currentPage <= u.numberOfPages + 1
      ensures PagingSound()
    {
    }

    /** `done()` of either task: the update is shown only when the task was not
        cancelled and returned one; a thrown exception is logged. */
    method Done(task: ViewTask, result: TaskResult)
      modifies this`nextPageEnabled, this`prevPageEnabled, this`currentPage, this`totalPageLabel
      modifies this`currentPageLabel, this`artifactLabel, this`artifactContentPanel
      ensures !task.cancelled && CarriesUpdate(result) ==> View() == Rendered(result.update.value)
      ensures task.cancelled || !CarriesUpdate(result) ==> View() == old(View())
    {
      if !task.cancelled {
        match result {
          case Returned(update) =>
            if update.Some? {
              UpdateView(update.value);
            }
          case Threw(_) =>
        }
      }
    }

    /** `SelectedNodeChangedTask.doInBackground`. */
    method SelectedNodeChangedInBackground(node: Node, seen: CancelObservations) returns (r: TaskResult)
      modifies this`artifactTableContents
      ensures r == SelectedNodeChanged(node, old(artifactTableContents), currentPage, seen).result
      ensures artifactTableContents == SelectedNodeChanged(node, old(artifactTableContents), currentPage, seen).cache
    {
      var contents := node.contents;
      if |contents| == 0 {
        return ErrorUpdate(artifactTableContents, currentPage);
      }
      // the artifacts of the first content that is not itself an artifact
      var artifacts: seq<Artifact> := [];
      var i := 0;
      while i < |contents|
        invariant 0 <= i <= |contents|
        invariant forall k :: 0 <= k < i ==> contents[k].ArtifactItem?
        invariant artifacts == []
      {
        if contents[i].ContentItem? {
          match contents[i].content.allArtifacts {
            case Failed =>
              return ErrorUpdate(artifactTableContents, currentPage);
            case Ok(list) =>
              artifacts := list;
              break;
          }
        }
        i := i + 1;
      }
      assert FetchArtifacts(contents) == Ok(artifacts);

      if seen.afterFetch {
        return Returned(None);
      }

      var artifactContents: seq<Artifact> := [];
      for j := 0 to |artifacts|
        invariant artifactContents == artifacts[..j]
      {
        artifactContents := artifactContents + [artifacts[j]];
      }
      assert artifactContents == artifacts;

      var index := ChooseIndex(artifacts, FirstArtifact(contents));

      if seen.afterIndex {
        return Returned(None);
      }
      if index >= |artifactContents| {
        return Threw(IndexOutOfBounds);
      }
      var viewUpdate := ViewUpdate(|artifactContents|, index + 1, ShowArtifact(artifactContents[index]));
      if seen.beforeSwap {
        return Returned(None);
      }
      SetArtifactContents(artifactContents);
      return Returned(Some(viewUpdate));
    }

    /** `nextPageButtonActionPerformed`: one page on, label from the cache,
        then a paging task for the new page. Nothing checks the bounds: a null
        cache or a page past the end throws after the page was already moved. */
    method NextPage() returns (ok: bool)
      modifies this`currentPage, this`currentPageLabel, this`artifactLabel, this`currentTask, {currentTask}`cancelled
      ensures currentPage == old(currentPage) + 1 && currentPageLabel == Some(currentPage)
      ensures ok <==> old(artifactTableContents).Some? && 0 <= old(currentPage) < |old(artifactTableContents).value|
      ensures old(nextPageEnabled) && old(PagingSound()) ==> ok
      ensures ok ==>
        artifactLabel == artifactTableContents.value[currentPage - 1].displayName &&
        currentTask != null && fresh(currentTask) && !currentTask.cancelled && !currentTask.finished &&
        currentTask.kind == SelectedArtifactChangedTask(currentPage) &&
        (old(currentTask) != null ==>
          old(currentTask).cancelled == (old(currentTask.cancelled) || !old(currentTask.finished)))
      ensures !ok ==> artifactLabel == old(artifactLabel) && currentTask == old(currentTask)
      ensures !ok && old(currentTask) != null ==> old(currentTask).cancelled == old(currentTask.cancelled)
    {
      currentPage := currentPage + 1;
      currentPageLabel := Some(currentPage);
      if artifactTableContents.None? || !(0 <= currentPage - 1 < |artifactTableContents.value|) {
        return false;
      }
      artifactLabel := artifactTableContents.value[currentPage - 1].displayName;
      var task := new ViewTask(SelectedArtifactChangedTask(currentPage));
      StartNewTask(task);
      return true;
    }

    /** `prevPageButtonActionPerformed`: one page back, otherwise as `NextPage`. */
    method PrevPage() returns (ok: bool)
      modifies this`currentPage, this`currentPageLabel, this`artifactLabel, this`currentTask, {currentTask}`cancelled
      ensures currentPage == old(currentPage) - 1 && currentPageLabel == Some(currentPage)
      ensures ok <==> old(artifactTableContents).Some? && 2 <= old(currentPage) <= |old(artifactTableContents).value| + 1
      ensures old(prevPageEnabled) && old(PagingSound()) ==> ok
      ensures ok ==>
        artifactLabel == artifactTableContents.value[currentPage - 1].displayName &&
        currentTask != null && fresh(currentTask) && !currentTask.cancelled && !currentTask.finished &&
        currentTask.kind == SelectedArtifactChangedTask(currentPage) &&
        (old(currentTask) != null ==>
          old(currentTask).cancelled == (old(currentTask.cancelled) || !old(currentTask.finished)))
      ensures !ok ==> artifactLabel == old(artifactLabel) && currentTask == old(currentTask)
      ensures !ok && old(currentTask) != null ==> old(currentTask).cancelled == old(currentTask.cancelled)
    {
      currentPage := currentPage - 1;
      currentPageLabel := Some(currentPage);
      if artifactTableContents.None? || !(0 <= currentPage - 1 < |artifactTableContents.value|) {
        return false;
      }
      artifactLabel := artifactTableContents.value[currentPage - 1].displayName;
      var task := new ViewTask(SelectedArtifactChangedTask(currentPage));
      StartNewTask(task);
      return true;
    }
  }

  /** Selecting node `b` before the load for node `a` has returned: the
      cancellation succeeds, so whatever that load computes, its completion
      leaves the view as it was. */
  method SelectionSupersedesLoad(viewer: DataContentViewerArtifact, a: Node, b: Node, seenByA: CancelObservations)
    requires viewer.currentNode != Some(a) && a != b && a.contents != [] && b.contents != []
    modifies viewer, viewer.currentTask
    ensures viewer.View() == old(viewer.View())
    ensures viewer.currentNode == Some(b) && viewer.currentTask != null && !viewer.currentTask.cancelled
    ensures viewer.currentTask.kind == SelectedNodeChangedTask(b)
  {
    viewer.SetNode(Some(a));
    var taskForA := viewer.currentTask;
    viewer.SetNode(Some(b));
    var resultForA := viewer.SelectedNodeChangedInBackground(a, seenByA);
    taskForA.Finish();
    viewer.Done(taskForA, resultForA);
  }

  /** Selecting node `b` after the load for node `a` has returned but before
      its `done()` ran: cancelling the finished task fails, and its `done()`
      shows `a`'s artifact although `b` is the selected node. */
  method FinishedLoadShownAfterReselection(viewer: DataContentViewerArtifact, a: Node, b: Node)
    requires viewer.currentNode != Some(a) && a != b && b.contents != []
    requires a.contents != [] && FetchArtifacts(a.contents).Ok? && FetchArtifacts(a.contents).value != []
    modifies viewer, viewer.currentTask
    ensures viewer.currentNode == Some(b) && viewer.currentTask != null && viewer.currentTask.kind == SelectedNodeChangedTask(b)
    ensures var artifacts := FetchArtifacts(a.contents).value;
      var index := InitialIndex(artifacts, FirstArtifact(a.contents));
      viewer.View() == viewer.Rendered(ViewUpdate(|artifacts|, index + 1, ShowArtifact(artifacts[index]))) &&
      viewer.artifactTableContents == Some(artifacts)
  {
    viewer.SetNode(Some(a));
    var taskForA := viewer.currentTask;
    var resultForA := viewer.SelectedNodeChangedInBackground(a, CancelObservations(false, false, false));
    taskForA.Finish();
    viewer.SetNode(Some(b));
    viewer.Done(taskForA, resultForA);
  }

  /** A cancellation that lands after the last checkpoint (line 583) but before
      `doInBackground` returns: the task has already swapped the cache, while
      `done()` shows nothing, so the cache and the page on screen no longer
      belong together. */
  method CancelAfterLastCheckpoint(viewer: DataContentViewerArtifact, node: Node)
    requires node.contents != [] && FetchArtifacts(node.contents).Ok? && FetchArtifacts(node.contents).value != []
    requires viewer.currentTask != null && viewer.currentTask.kind == SelectedNodeChangedTask(node)
    requires !viewer.currentTask.finished
    modifies viewer, viewer.currentTask
    ensures viewer.artifactTableContents == Some(FetchArtifacts(node.contents).value)
    ensures viewer.View() == old(viewer.View())
  {
    var task := viewer.currentTask;
    var result := viewer.SelectedNodeChangedInBackground(node, CancelObservations(false, false, false));
    task.Cancel();
    task.Finish();
    viewer.Done(task, result);
  }
}
