/** Blackboard artifacts as the artifact content viewer sees them, and the pure
    index logic that picks the artifact to show first for a selected node. */
module Blackboard {
  import opened Store

  /** The artifact types the viewer tells apart; every other type id is the one value `OtherArtifactType`. */
  datatype ArtifactType =
    | HashsetHit
    | KeywordHit
    | InterestingFileHit
    | ObjectDetected
    | MetadataExif
    | ExtMismatchDetected
    | OtherArtifactType

  /** `TSK_ASSOCIATED_ARTIFACT`, or any other attribute type id. */
  datatype AttributeType = AssociatedArtifact | OtherAttributeType

  datatype Attribute = Attribute(attributeType: AttributeType, valueLong: int)

  /** A blackboard artifact. `attributes` is what `getAttributes()` returns for it. */
  datatype Artifact = Artifact(
    artifactId: int,
    artifactType: ArtifactType,
    displayName: string,
    attributes: Fetch<seq<Attribute>>)

  /** A content item that is not an artifact (a file): the outcomes of its
      `getAllArtifacts()` and `getAllArtifactsCount()` queries. */
  datatype Content = Content(allArtifacts: Fetch<seq<Artifact>>, allArtifactsCount: Fetch<int>)

  /** One `Content` instance held in a node's lookup, in lookup order. */
  datatype LookupItem = ArtifactItem(artifact: Artifact) | ContentItem(content: Content)

  /** A tree node: `handle` stands for its object identity, `contents` for
      `getLookup().lookupAll(Content.class)`. */
  datatype Node = Node(handle: nat, contents: seq<LookupItem>)

  /** `lookup(BlackboardArtifact.class)`: the first artifact in the lookup, if any. */
  function FirstArtifact(items: seq<LookupItem>): (r: Option<Artifact>)
    ensures r.None? <==> forall k :: 0 <= k < |items| ==> items[k].ContentItem?
    ensures r.Some? ==>
      exists i :: 0 <= i < |items| && items[i] == ArtifactItem(r.value) &&
        forall k :: 0 <= k < i ==> items[k].ContentItem?
  {
    if items == [] then None
    else if items[0].ArtifactItem? then Some(items[0].artifact)
    else
      assert forall i :: 0 <= i < |items[1..]| ==> items[1..][i] == items[i + 1];
      FirstArtifact(items[1..])
  }

  /** The artifact list the loader works on: `getAllArtifacts()` of the first
      lookup item that is not an artifact, or the empty list when every item is
      an artifact. */
  function FetchArtifacts(items: seq<LookupItem>): (r: Fetch<seq<Artifact>>)
    ensures (forall k :: 0 <= k < |items| ==> items[k].ArtifactItem?) ==> r == Ok([])
    ensures forall i ::
      0 <= i < |items| && items[i].ContentItem? && (forall k :: 0 <= k < i ==> items[k].ArtifactItem?)
      ==> r == items[i].content.allArtifacts
  {
    if items == [] then Ok([])
    else if items[0].ContentItem? then items[0].content.allArtifacts
    else
      assert forall i :: 0 < i < |items| ==> items[1..][i - 1] == items[i];
      FetchArtifacts(items[1..])
  }

  ghost predicate HasId(artifacts: seq<Artifact>, id: int)
  {
    exists k :: 0 <= k < |artifacts| && artifacts[k].artifactId == id
  }

  /** `i` is the first position in `artifacts` holding an artifact with id `id`. */
  ghost predicate FirstWithId(artifacts: seq<Artifact>, id: int, i: int)
  {
    0 <= i < |artifacts| && artifacts[i].artifactId == id &&
    forall k :: 0 <= k < i ==> artifacts[k].artifactId != id
  }

  /** `List.indexOf` over artifacts, which compare equal when their ids are
      equal: the first position with id `id`, or -1. */
  function FindById(artifacts: seq<Artifact>, id: int): (r: int)
    ensures -1 <= r < |artifacts|
    ensures r == -1 <==> !HasId(artifacts, id)
    ensures r != -1 ==> FirstWithId(artifacts, id, r)
  {
    if artifacts == [] then -1
    else if artifacts[0].artifactId == id then 0
    else
      var r := FindById(artifacts[1..], id);
      assert forall k :: 0 < k < |artifacts| ==> artifacts[1..][k - 1] == artifacts[k];
      if r == -1 then -1 else r + 1
  }

  /** Some position of `attributes` holds the first associated-artifact attribute, with value `id`. */
  ghost predicate FirstAssociatedAt(attributes: seq<Attribute>, id: int)
  {
    exists i :: 0 <= i < |attributes| && attributes[i] == Attribute(AssociatedArtifact, id) &&
      forall k :: 0 <= k < i ==> attributes[k].attributeType != AssociatedArtifact
  }

  /** The value of the first `TSK_ASSOCIATED_ARTIFACT` attribute; later ones are never looked at. */
  function FirstAssociatedId(attributes: seq<Attribute>): (r: Option<int>)
    ensures r.None? <==> forall k :: 0 <= k < |attributes| ==> attributes[k].attributeType != AssociatedArtifact
    ensures forall i ::
      0 <= i < |attributes| && attributes[i].attributeType == AssociatedArtifact &&
      (forall k :: 0 <= k < i ==> attributes[k].attributeType != AssociatedArtifact)
      ==> r == Some(attributes[i].valueLong)
    ensures r.Some? ==> FirstAssociatedAt(attributes, r.value)
  {
    if attributes == [] then None
    else if attributes[0].attributeType == AssociatedArtifact then Some(attributes[0].valueLong)
    else
      assert forall i :: 0 < i < |attributes| ==> attributes[1..][i - 1] == attributes[i];
      FirstAssociatedId(attributes[1..])
  }

  /** The id the artifact's first associated-artifact attribute names; none
      when it has no such attribute or reading its attributes failed. */
  function AssociatedId(artifact: Artifact): (r: Option<int>)
    ensures r.Some? <==> (artifact.attributes.Ok? &&
      exists k :: 0 <= k < |artifact.attributes.value| && artifact.attributes.value[k].attributeType == AssociatedArtifact)
    ensures r.Some? ==> artifact.attributes.Ok? && FirstAssociatedAt(artifact.attributes.value, r.value)
  {
    match artifact.attributes
    case Failed => None
    case Ok(attributes) => FirstAssociatedId(attributes)
  }

  /** The 0-based position of the artifact shown first for a selection whose
      lookup holds `selected` as its artifact. */
  function InitialIndex(artifacts: seq<Artifact>, selected: Option<Artifact>): (r: nat)
    ensures |artifacts| > 0 ==> r < |artifacts|
    ensures selected.None? || !HasId(artifacts, selected.value.artifactId) ==> r == 0
    ensures selected.Some? && HasId(artifacts, selected.value.artifactId) ==>
      var assoc := AssociatedId(selected.value);
      if assoc.Some? && HasId(artifacts, assoc.value) then FirstWithId(artifacts, assoc.value, r)
      else FirstWithId(artifacts, selected.value.artifactId, r)
  {
    if selected.None? then 0
    else
      var index := FindById(artifacts, selected.value.artifactId);
      if index == -1 then 0
      else match AssociatedId(selected.value)
        case None => index
        case Some(id) =>
          var assocIndex := FindById(artifacts, id);
          if assocIndex >= 0 then assocIndex else index
  }
}
