/** The tree node for a group of files sharing one MD5 hash: a fixed snapshot
    of hash, count and data sources, children built lazily from the group's
    file instances, and rebuilds on "ADD"/"REMOVE" notifications. */
module Md5Tree {
  import opened Store

  /** One file instance of the group: its object id and its data source's name. */
  datatype FileInstanceMetadata = FileInstanceMetadata(objectId: int, dataSourceName: string)

  datatype AbstractFile = AbstractFile(objId: int, name: string)

  /** The child node shown for one file instance. */
  datatype FileInstanceNode = FileInstanceNode(file: AbstractFile, dataSourceName: string)

  /** What resolving an object id gives: no open case, a failing query, or the
      files the `obj_id in (...)` query returned. */
  datatype FileLookup = NoCurrentCase | QueryFailed | Files(files: seq<AbstractFile>)

  /** `createNodeForKey`'s outcome: a node, null (the failure was logged), or
      an exception it does not catch (`get(0)` on an empty query result). */
  datatype KeyNode = Created(node: FileInstanceNode) | NoNode | Uncaught

  /** `createNodeForKey`: the node for the first file the query returns,
      labelled with the instance's data source. */
  function CreateNodeForKey(file: FileInstanceMetadata, lookup: int -> FileLookup): (r: KeyNode)
    ensures r.NoNode? <==> lookup(file.objectId).NoCurrentCase? || lookup(file.objectId).QueryFailed?
    ensures r.Created? <==> lookup(file.objectId).Files? && lookup(file.objectId).files != []
    ensures r.Created? ==>
      r.node.dataSourceName == file.dataSourceName && r.node.file in lookup(file.objectId).files
  {
    match lookup(file.objectId)
    case NoCurrentCase => NoNode
    case QueryFailed => NoNode
    case Files(files) => if files == [] then Uncaught else Created(FileInstanceNode(files[0], file.dataSourceName))
  }

  /** The child nodes a list of keys yields: each key in order contributes its
      node, or nothing when it gave null; `None` when some key threw. */
  function ChildNodes(keys: seq<FileInstanceMetadata>, lookup: int -> FileLookup): (r: Option<seq<FileInstanceNode>>)
    ensures r.None? <==> exists i :: 0 <= i < |keys| && CreateNodeForKey(keys[i], lookup).Uncaught?
    ensures r.Some? ==> |r.value| <= |keys|
    ensures r.Some? ==> forall n :: n in r.value ==>
      exists i :: 0 <= i < |keys| && CreateNodeForKey(keys[i], lookup) == Created(n)
  {
    if keys == [] then Some([])
    else
      var rest := ChildNodes(keys[1..], lookup);
      assert forall i :: 0 < i < |keys| ==> keys[1..][i - 1] == keys[i];
      match CreateNodeForKey(keys[0], lookup)
      case Uncaught => None
      case NoNode => rest
      case Created(n) => if rest.Some? then Some([n] + rest.value) else None
  }

  function Concat(a: Option<seq<FileInstanceNode>>, b: Option<seq<FileInstanceNode>>): Option<seq<FileInstanceNode>>
  {
    if a.Some? && b.Some? then Some(a.value + b.value) else None
  }

  /** Children of consecutive key lists are the concatenation of their children. */
  lemma {:induction false} ChildNodesAppend(a: seq<FileInstanceMetadata>, b: seq<FileInstanceMetadata>, lookup: int -> FileLookup)
    ensures ChildNodes(a + b, lookup) == Concat(ChildNodes(a, lookup), ChildNodes(b, lookup))
  {
    if a == [] {
      assert a + b == b;
      if ChildNodes(b, lookup).Some? {
        assert [] + ChildNodes(b, lookup).value == ChildNodes(b, lookup).value;
      }
    } else {
      assert (a + b)[0] == a[0];
      assert (a + b)[1..] == a[1..] + b;
      ChildNodesAppend(a[1..], b, lookup);
      var restA, restB := ChildNodes(a[1..], lookup), ChildNodes(b, lookup);
      match CreateNodeForKey(a[0], lookup)
      case Uncaught =>
      case NoNode =>
      case Created(n) =>
        if restA.Some? && restB.Some? {
          assert [n] + (restA.value + restB.value) == ([n] + restA.value) + restB.value;
        }
    }
  }

  /** A key whose file cannot be resolved contributes no child and leaves the
      children of the other keys as they are. */
  lemma SkipUnresolvedKey(before: seq<FileInstanceMetadata>, key: FileInstanceMetadata,
                          after: seq<FileInstanceMetadata>, lookup: int -> FileLookup)
    requires CreateNodeForKey(key, lookup).NoNode?
    ensures ChildNodes(before + [key] + after, lookup) == ChildNodes(before + after, lookup)
  {
    ChildNodesAppend(before + [key], after, lookup);
    ChildNodesAppend(before, [key], lookup);
    ChildNodesAppend(before, after, lookup);
    assert ChildNodes([key], lookup) == Some([]);
    var front := ChildNodes(before, lookup);
    if front.Some? {
      assert front.value + [] == front.value;
    }
  }

  /** When every key resolves there is one child per key, in key order. */
  lemma {:induction false} AllKeysResolved(keys: seq<FileInstanceMetadata>, lookup: int -> FileLookup)
    requires forall i :: 0 <= i < |keys| ==> CreateNodeForKey(keys[i], lookup).Created?
    ensures ChildNodes(keys, lookup).Some?
    ensures |ChildNodes(keys, lookup).value| == |keys|
    ensures forall i :: 0 <= i < |keys| ==>
      ChildNodes(keys, lookup).value[i] == CreateNodeForKey(keys[i], lookup).node
  {
    if keys != [] {
      assert forall i :: 1 <= i < |keys| ==> keys[1..][i - 1] == keys[i];
      AllKeysResolved(keys[1..], lookup);
      assert CreateNodeForKey(keys[0], lookup).Created?;
    }
  }

  /** `String.join(sep, parts)`: the empty string for no parts, and a string
      that starts with the first part and is at least as long as each part. */
  function Join(sep: string, parts: seq<string>): (r: string)
    ensures parts == [] ==> r == ""
    ensures parts != [] ==> parts[0] <= r
    ensures forall i :: 0 <= i < |parts| ==> |parts[i]| <= |r|
  {
    if parts == [] then ""
    else if |parts| == 1 then parts[0]
    else
      assert forall i :: 0 < i < |parts| ==> parts[1..][i - 1] == parts[i];
      parts[0] + sep + Join(sep, parts[1..])
  }

  function TotalLength(parts: seq<string>): nat
  {
    if parts == [] then 0 else |parts[0]| + TotalLength(parts[1..])
  }

  /** The joined string holds every part once and one separator between each two. */
  lemma {:induction false} JoinLength(sep: string, parts: seq<string>)
    requires parts != []
    ensures |Join(sep, parts)| == TotalLength(parts) + |sep| * (|parts| - 1)
  {
    if |parts| > 1 {
      JoinLength(sep, parts[1..]);
    }
  }

  /** The last part closes the joined string. */
  lemma {:induction false} JoinEnds(sep: string, parts: seq<string>)
    requires parts != []
    ensures Join(sep, parts)[|Join(sep, parts)| - |parts[|parts| - 1]|..] == parts[|parts| - 1]
  {
    if |parts| > 1 {
      JoinEnds(sep, parts[1..]);
      var rest := Join(sep, parts[1..]);
      assert Join(sep, parts) == (parts[0] + sep) + rest;
      var last := parts[|parts| - 1];
      assert last == parts[1..][|parts[1..]| - 1];
      assert Join(sep, parts)[|Join(sep, parts)| - |last|..] == rest[|rest| - |last|..];
    }
  }

  /** The group's metadata object (`Md5Metadata`), updated by code that is not part of this model. */
  class Md5Metadata {
    var md5: string
    var size: int
    var dataSources: seq<string>
    var metadata: seq<FileInstanceMetadata>

    constructor (md5: string, size: int, dataSources: seq<string>, metadata: seq<FileInstanceMetadata>)
      ensures this.md5 == md5 && this.size == size && this.dataSources == dataSources && this.metadata == metadata
    {
      this.md5 := md5;
      this.size := size;
      this.dataSources := dataSources;
      this.metadata := metadata;
    }
  }

  /** The list a child factory fills with keys. */
  class KeyList {
    var items: seq<FileInstanceMetadata>

    constructor ()
      ensures items == []
    {
      items := [];
    }
  }

  /** `FileInstanceNodeFactory`: makes one child per file instance of the group.
      `keys` is `None` until its key list is first computed. */
  class FileInstanceNodeFactory {
    const descendants: Md5Metadata
    var keys: Option<seq<FileInstanceMetadata>>

    constructor (descendants: Md5Metadata)
      ensures this.descendants == descendants && keys.None?
    {
      this.descendants := descendants;
      keys := None;
    }

    /** `createKeys`: appends every file instance, in order, to the list and returns true. */
    method CreateKeys(list: KeyList) returns (r: bool)
      modifies list
      ensures list.items == old(list.items) + descendants.metadata
      ensures |list.items| == |old(list.items)| + |descendants.metadata|
      ensures r
    {
      list.items := list.items + descendants.metadata;
      return true;
    }

    /** `refresh(true)`: the key list is rebuilt from scratch by `createKeys`. */
    method Refresh()
      modifies this`keys
      ensures keys == Some(descendants.metadata)
    {
      var list := new KeyList();
      var _ := CreateKeys(list);
      assert list.items == [] + descendants.metadata == descendants.metadata;
      keys := Some(list.items);
    }

    /** `propertyChange`: refreshes on "ADD" and "REMOVE" only. Refreshing
        twice gives the same keys as once, so a second notification for the
        same change adds no duplicate child. */
    method PropertyChange(propertyName: string)
      modifies this`keys
      ensures propertyName == "ADD" || propertyName == "REMOVE" ==> keys == Some(descendants.metadata)
      ensures propertyName != "ADD" && propertyName != "REMOVE" ==> keys == old(keys)
    {
      if propertyName == "ADD" || propertyName == "REMOVE" {
        Refresh();
      }
    }
  }

  /** A node's children: not yet built (`Children.createLazy`), a leaf, or built by a factory. */
  datatype Children = Lazy | Leaf | Built(factory: FileInstanceNodeFactory)

  /** `Md5ChildCallable.call`: a leaf when the group has no file instances, a new factory otherwise. */
  method ChildCallable(key: Md5Metadata) returns (c: Children)
    ensures c.Leaf? <==> key.metadata == []
    ensures c.Built? <==> key.metadata != []
    ensures c.Built? ==> fresh(c.factory) && c.factory.descendants == key && c.factory.keys.None?
  {
    if key.metadata == [] {
      return Leaf;
    }
    var factory := new FileInstanceNodeFactory(key);
    return Built(factory);
  }

  /** The display name of the one property the node's sheet shows. */
  const DataSourceProperty: string := "Data Source"

  class Md5Node {
    const md5Hash: string
    const commonFileCount: int
    const dataSources: string
    const metaData: Md5Metadata
    /** What the group's metadata held when the node was made. */
    ghost const sizeAtCreation: int
    ghost const dataSourcesAtCreation: seq<string>
    ghost const md5AtCreation: string
    var displayName: string
    var children: Children

    /** The node's fields are the snapshot its constructor took. */
    ghost predicate Snapshot()
    {
      commonFileCount == sizeAtCreation && dataSources == Join(", ", dataSourcesAtCreation) &&
      md5Hash == md5AtCreation
    }

    ghost predicate Valid()
      reads this
    {
      children.Built? ==> children.factory.descendants == metaData
    }

    /** The snapshot of the group taken at construction; the hash is also the display name. */
    constructor (data: Md5Metadata)
      ensures commonFileCount == data.size
      ensures dataSources == Join(", ", data.dataSources)
      ensures md5Hash == data.md5 && displayName == data.md5
      ensures metaData == data && children == Lazy
      ensures sizeAtCreation == data.size && dataSourcesAtCreation == data.dataSources && md5AtCreation == data.md5
      ensures Snapshot() && Valid()
    {
      sizeAtCreation := data.size;
      dataSourcesAtCreation := data.dataSources;
      md5AtCreation := data.md5;
      commonFileCount := data.size;
      dataSources := Join(", ", data.dataSources);
      md5Hash := data.md5;
      metaData := data;
      children := Lazy;
      displayName := md5Hash;
    }

    /** The group's size when the node was made, whatever the metadata holds now. */
    function GetCommonFileCount(): (r: int)
      requires Snapshot()
      ensures r == sizeAtCreation
    {
      commonFileCount
    }

    /** The data sources the group had when the node was made, joined by ", ". */
    function GetDataSources(): (r: string)
      requires Snapshot()
      ensures r == Join(", ", dataSourcesAtCreation)
      ensures dataSourcesAtCreation != [] ==> dataSourcesAtCreation[0] <= r
    {
      dataSources
    }

    /** The group's hash when the node was made. */
    function GetMd5(): (r: string)
      requires Snapshot()
      ensures r == md5AtCreation
    {
      md5Hash
    }

    /** `isLeafTypeNode`. */
    function IsLeafTypeNode(): (r: bool)
      ensures !r
    {
      false
    }

    /** The first request for the children runs the lazy callable; later requests see what it built. */
    method Expand()
      requires Valid()
      modifies this`children
      ensures Valid()
      ensures old(children) != Lazy ==> children == old(children)
      ensures old(children) == Lazy ==> children != Lazy && (children.Leaf? <==> metaData.metadata == [])
      ensures old(children) == Lazy && children.Built? ==>
        fresh(children.factory) && children.factory.descendants == metaData && children.factory.keys.None?
    {
      if children == Lazy {
        children := ChildCallable(metaData);
      }
    }

    /** `propertyChange`: an "ADD" replaces the children with a new factory over
        the group's current file instances; any other event changes nothing. */
    method PropertyChange(propertyName: string)
      requires Valid()
      modifies this`children
      ensures Valid()
      ensures propertyName == "ADD" ==>
        children.Built? && fresh(children.factory) && children.factory.descendants == metaData &&
        children.factory.keys.None?
      ensures propertyName != "ADD" ==> children == old(children)
    {
      if propertyName == "ADD" {
        var factory := new FileInstanceNodeFactory(metaData);
        children := Built(factory);
      }
    }
  }

  /** `fillPropertyMap`: puts the node's data sources under "Data Source" and keeps every other entry. */
  function FillPropertyMap(m: map<string, string>, node: Md5Node): (r: map<string, string>)
    ensures r.Keys == m.Keys + {DataSourceProperty}
    ensures r[DataSourceProperty] == node.dataSources
    ensures forall k :: k in m && k != DataSourceProperty ==> r[k] == m[k]
    ensures m == map[] ==> r == map[DataSourceProperty := node.dataSources]
  {
    m[DataSourceProperty := node.dataSources]
  }
}
