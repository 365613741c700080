/** Loaded node modules and the runtime nodes built from them. A module's descriptor lives only as
    long as its loader, so a loader may be destroyed only when no node refers to it. */
module Registry {
  import opened CStrings
  import opened Descriptors
  import opened Options

  // What opening a module path yields.
  datatype ModuleFile = NoModule | Nameless | Module(descriptor: Descriptor)

  datatype LoadedNode = LoadedNode(loader: nat, descriptor: Descriptor)

  // A node put in the runtime by others, or one the engine built from a loader's descriptor.
  datatype Origin = External | FromLoader(loader: nat)

  datatype Node = Node(id: nat, name: Text, origin: Origin)

  // The loaded-node collection, the loaders not yet destroyed, and the runtime's nodes.
  datatype State = State(loaded: seq<LoadedNode>, live: set<nat>, nextLoader: nat, nodes: seq<Node>)

  // ---------- Specification ----------

  function Find(loaded: seq<LoadedNode>, name: Text): (k: nat)
    ensures k <= |loaded|
    ensures k < |loaded| ==> loaded[k].descriptor.name == name
    ensures forall j :: 0 <= j < k ==> loaded[j].descriptor.name != name
  {
    if loaded == [] || loaded[0].descriptor.name == name then 0 else 1 + Find(loaded[1..], name)
  }

  function Get(loaded: seq<LoadedNode>, name: Text): (r: Option<LoadedNode>) {
    var k := Find(loaded, name);
    if k < |loaded| then Some(loaded[k]) else None
  }

  function Without(loaded: seq<LoadedNode>, k: nat): seq<LoadedNode>
    requires k < |loaded|
  {
    loaded[..k] + loaded[k + 1..]
  }

  function KeepNodes(nodes: seq<Node>, keep: Node -> bool): (r: seq<Node>)
    ensures forall n :: n in r <==> n in nodes && keep(n)
  {
    if nodes == [] then []
    else if keep(nodes[0]) then [nodes[0]] + KeepNodes(nodes[1..], keep)
    else KeepNodes(nodes[1..], keep)
  }

  // Removing the runtime nodes of a name, then the name's entry with its loader.
  function Evict(r: State, name: Text): State {
    var k := Find(r.loaded, name);
    var nodes := KeepNodes(r.nodes, (n: Node) => n.name != name);
    if k < |r.loaded| then
      r.(nodes := nodes, loaded := Without(r.loaded, k), live := r.live - {r.loaded[k].loader})
    else r.(nodes := nodes)
  }

  function Store(r: State, loader: nat, d: Descriptor): State {
    r.(loaded := r.loaded + [LoadedNode(loader, d)], live := r.live + {loader})
  }

  // A module takes the place of the one that had its name, if any; it may fail to be stored.
  function Replaced(r: State, loader: nat, d: Descriptor, stored: bool): State {
    var evicted := Evict(r, d.name);
    if stored then Store(evicted, loader, d) else evicted
  }

  function Load(r: State, file: ModuleFile, nodeType: NodeType, memory: bool, stored: bool): (State,
                Option<Descriptor>) {
    var ready := r.(nextLoader := r.nextLoader + 1);
    if file.NoModule? then (r, None)
    else if file.Nameless? || (nodeType != InvalidType && file.descriptor.nodeType != nodeType) || !memory then
      (ready, None)
    else
      (Replaced(ready, r.nextLoader, file.descriptor, stored), if stored then Some(file.descriptor) else None)
  }

  function Add(r: State, name: Text, created: bool, accepted: bool, newId: nat): (State, Option<Node>) {
    var entry := Get(r.loaded, name);
    if entry.None? || !IsValidType(entry.value.descriptor.nodeType) || !created || !accepted then (r, None)
    else
      var n := Node(newId, name, FromLoader(entry.value.loader));
      (r.(nodes := r.nodes + [n]), Some(n))
  }

  function AddAs(r: State, name: Text, nodeType: NodeType, created: bool, accepted: bool, newId: nat)
    : (State, Option<Node>)
  {
    var entry := Get(r.loaded, name);
    if !IsValidType(nodeType) || entry.None? || entry.value.descriptor.nodeType != nodeType then (r, None)
    else Add(r, name, created, accepted, newId)
  }

  function Remove(r: State, id: nat): (State, bool) {
    (r.(nodes := KeepNodes(r.nodes, (n: Node) => n.id != id)), exists n :: n in r.nodes && n.id == id)
  }

  // ---------- Descriptor lifetime ----------

  ghost predicate UniqueNames(loaded: seq<LoadedNode>) {
    forall i, j :: 0 <= i < j < |loaded| ==>
      loaded[i].descriptor.name != loaded[j].descriptor.name && loaded[i].loader != loaded[j].loader
  }

  // The node's descriptor is the live one registered under the node's name.
  ghost predicate Backed(r: State, n: Node) {
    n.origin.FromLoader? ==>
      exists k :: 0 <= k < |r.loaded| && r.loaded[k].loader == n.origin.loader && r.loaded[k].descriptor.name == n.name
  }

  ghost predicate Valid(r: State) {
    && UniqueNames(r.loaded)
    && (forall l :: l in r.live <==> exists k :: 0 <= k < |r.loaded| && r.loaded[k].loader == l)
    && (forall l :: l in r.live ==> l < r.nextLoader)
    && (forall n :: n in r.nodes ==> Backed(r, n))
  }

  ghost predicate Unreferenced(r: State, loader: nat) {
    forall n :: n in r.nodes ==> n.origin != FromLoader(loader)
  }

  // Any node of the entry at k bears that entry's name, so removing the nodes of that name frees it.
  lemma OnlyNamesakes(r: State, k: nat, n: Node)
    requires Valid(r) && k < |r.loaded| && n in r.nodes && n.origin == FromLoader(r.loaded[k].loader)
    ensures n.name == r.loaded[k].descriptor.name
  {
    assert Backed(r, n);
  }

  lemma BackedElsewhere(r: State, name: Text, n: Node)
    requires Valid(r) && n in r.nodes && n.name != name
    ensures Backed(Evict(r, name), n)
  {
    assert Backed(r, n);
    if n.origin.FromLoader? {
      var k, rest := Find(r.loaded, name), Evict(r, name).loaded;
      var i :| 0 <= i < |r.loaded| && r.loaded[i].loader == n.origin.loader && r.loaded[i].descriptor.name == n.name;
      var i' := if i < k then i else i - 1;
      assert k < |r.loaded| ==> rest[i'] == r.loaded[i];
    }
  }

  lemma LiveAfterRemoval(r: State, k: nat)
    requires Valid(r) && k < |r.loaded|
    ensures var rest := Without(r.loaded, k);
      forall l :: l in r.live - {r.loaded[k].loader} <==> exists i :: 0 <= i < |rest| && rest[i].loader == l
  {
    var rest := Without(r.loaded, k);
    forall l | l in r.live && l != r.loaded[k].loader ensures exists i :: 0 <= i < |rest| && rest[i].loader == l {
      var i :| 0 <= i < |r.loaded| && r.loaded[i].loader == l;
      var i' := if i < k then i else i - 1;
      assert rest[i'] == r.loaded[i];
    }
    forall i | 0 <= i < |rest| ensures rest[i].loader in r.live - {r.loaded[k].loader} {
      assert rest[i] == r.loaded[if i < k then i else i + 1];
    }
  }

  lemma EvictKeepsValid(r: State, name: Text)
    requires Valid(r)
    ensures var r' := Evict(r, name);
      && Valid(r')
      && (forall i :: 0 <= i < |r'.loaded| ==> r'.loaded[i].descriptor.name != name)
  {
    var r' := Evict(r, name);
    var k := Find(r.loaded, name);
    if k < |r.loaded| { LiveAfterRemoval(r, k); }
    forall n | n in r'.nodes ensures Backed(r', n) { BackedElsewhere(r, name, n); }
  }

  lemma StoreKeepsValid(r: State, loader: nat, d: Descriptor)
    requires Valid(r) && loader !in r.live && loader < r.nextLoader
    requires forall i :: 0 <= i < |r.loaded| ==> r.loaded[i].descriptor.name != d.name
    ensures Valid(Store(r, loader, d))
  {
    var r' := Store(r, loader, d);
    assert forall i :: 0 <= i < |r.loaded| ==> r'.loaded[i] == r.loaded[i];
    assert r'.loaded[|r.loaded|].loader == loader;
    forall i | 0 <= i < |r.loaded| ensures r.loaded[i].loader in r.live {}
    forall n | n in r'.nodes ensures Backed(r', n) {
      assert Backed(r, n);
      if n.origin.FromLoader? {
        var k :| 0 <= k < |r.loaded| && r.loaded[k].loader == n.origin.loader && r.loaded[k].descriptor.name == n.name;
        assert r'.loaded[k] == r.loaded[k];
      }
    }
  }

  lemma NextLoaderKeepsValid(r: State)
    requires Valid(r)
    ensures Valid(r.(nextLoader := r.nextLoader + 1)) && r.nextLoader !in r.live
  {
    var ready := r.(nextLoader := r.nextLoader + 1);
    forall n | n in r.nodes ensures Backed(ready, n) { assert Backed(r, n); }
  }

  lemma Unused(r: State, loader: nat)
    requires Valid(r) && loader !in r.live
    ensures Unreferenced(r, loader)
  {
    forall n | n in r.nodes ensures n.origin != FromLoader(loader) { assert Backed(r, n); }
  }

  lemma ReplaceKeepsValid(r: State, loader: nat, d: Descriptor, stored: bool)
    requires Valid(r) && loader !in r.live && loader < r.nextLoader
    ensures Valid(Replaced(r, loader, d, stored))
  {
    EvictKeepsValid(r, d.name);
    if stored { StoreKeepsValid(Evict(r, d.name), loader, d); }
  }

  lemma LoadKeepsValid(r: State, file: ModuleFile, nodeType: NodeType, memory: bool, stored: bool)
    requires Valid(r)
    ensures Valid(Load(r, file, nodeType, memory, stored).0)
  {
    var ready, r' := r.(nextLoader := r.nextLoader + 1), Load(r, file, nodeType, memory, stored).0;
    NextLoaderKeepsValid(r);
    if Acceptable(file, nodeType, memory) {
      var d := file.descriptor;
      ReplaceKeepsValid(ready, r.nextLoader, d, stored);
      assert r' == Replaced(ready, r.nextLoader, d, stored);
    } else {
      assert r' == r || r' == ready;
    }
  }

  lemma AddKeepsValid(r: State, name: Text, created: bool, accepted: bool, newId: nat)
    requires Valid(r)
    ensures Valid(Add(r, name, created, accepted, newId).0)
  {
    var r' := Add(r, name, created, accepted, newId).0;
    forall n | n in r'.nodes ensures Backed(r', n) {
      if n in r.nodes { assert Backed(r, n); }
    }
  }

  lemma RemoveKeepsValid(r: State, id: nat)
    requires Valid(r)
    ensures Valid(Remove(r, id).0)
  {
    var r' := Remove(r, id).0;
    forall n | n in r'.nodes ensures Backed(r', n) { assert Backed(r, n); }
  }

  lemma {:induction false} KeepsAllIff(nodes: seq<Node>, keep: Node -> bool)
    ensures |KeepNodes(nodes, keep)| <= |nodes|
    ensures KeepNodes(nodes, keep) == nodes <==> forall n :: n in nodes ==> keep(n)
  {
    if nodes != [] {
      KeepsAllIff(nodes[1..], keep);
      assert nodes == [nodes[0]] + nodes[1..];
    }
  }

  // Without a wanted type, a node can be added of any loaded module that is a plugin or a device.
  lemma AddSucceedsIff(r: State, name: Text, created: bool, accepted: bool, newId: nat)
    requires Valid(r)
    ensures var (r', n) := Add(r, name, created, accepted, newId);
      && (n.Some? <==> created && accepted && (LoadedAs(r, name, PluginType) || LoadedAs(r, name, DeviceType)))
      && (n.Some? ==> r' == r.(nodes := r.nodes + [n.value]) && n.value.id == newId && n.value.name == name)
      && (n.Some? ==> n.value.origin.FromLoader? && Backed(r', n.value))
      && (n.None? ==> r' == r)
  {
    AddKeepsValid(r, name, created, accepted, newId);
    var k := Find(r.loaded, name);
    if k < |r.loaded| { assert r.loaded[k].descriptor.name == name; }
  }

  ghost predicate LoadedAs(r: State, name: Text, nodeType: NodeType) {
    exists k :: 0 <= k < |r.loaded|
      && r.loaded[k].descriptor.name == name && r.loaded[k].descriptor.nodeType == nodeType
  }

  // Adding succeeds exactly when the name is loaded under the wanted type and the runtime takes the
  // node; the node then stands on the module registered under its name.
  lemma AddAsSucceedsIff(r: State, name: Text, nodeType: NodeType, created: bool, accepted: bool, newId: nat)
    requires Valid(r)
    ensures var (r', n) := AddAs(r, name, nodeType, created, accepted, newId);
      && (n.Some? <==> (nodeType == PluginType || nodeType == DeviceType) && created && accepted
                       && LoadedAs(r, name, nodeType))
      && (n.Some? ==> r'.nodes == r.nodes + [n.value])
      && (n.Some? ==> n.value.id == newId && n.value.name == name && Backed(r', n.value))
      && (n.None? ==> r' == r)
  {
    AddKeepsValid(r, name, created, accepted, newId);
    var k := Find(r.loaded, name);
    if k < |r.loaded| { assert r.loaded[k].descriptor.name == name; }
  }

  // Keeping nodes keeps their order, each as often as before.
  lemma {:induction false} KeepsOrder(a: seq<Node>, b: seq<Node>, keep: Node -> bool)
    ensures KeepNodes(a + b, keep) == KeepNodes(a, keep) + KeepNodes(b, keep)
  {
    if a == [] {
      assert a + b == b;
    } else {
      assert (a + b)[1..] == a[1..] + b;
      KeepsOrder(a[1..], b, keep);
    }
  }

  lemma {:induction false} KeepsNone(nodes: seq<Node>, keep: Node -> bool)
    requires forall n :: n in nodes ==> !keep(n)
    ensures KeepNodes(nodes, keep) == []
  {
    if nodes != [] { KeepsNone(nodes[1..], keep); }
  }

  ghost predicate NameInUse(r: State, name: Text) {
    || (exists k :: 0 <= k < |r.loaded| && r.loaded[k].descriptor.name == name)
    || (exists n :: n in r.nodes && n.name == name)
  }

  predicate Acceptable(file: ModuleFile, nodeType: NodeType, memory: bool) {
    file.Module? && (nodeType == InvalidType || file.descriptor.nodeType == nodeType) && memory
  }

  // Looking up a name before and after the entry of another name is taken out or put at the end.
  lemma GetAfterRemoval(loaded: seq<LoadedNode>, k: nat, name: Text)
    requires UniqueNames(loaded) && k < |loaded|
    ensures Get(Without(loaded, k), name) == if name == loaded[k].descriptor.name then None else Get(loaded, name)
  {
    var rest, i := Without(loaded, k), Find(loaded, name);
    forall j | 0 <= j < |rest| ensures rest[j] == loaded[if j < k then j else j + 1] {}
    if name != loaded[k].descriptor.name && i < |loaded| { assert rest[if i < k then i else i - 1] == loaded[i]; }
  }

  lemma GetAfterAppend(loaded: seq<LoadedNode>, e: LoadedNode, name: Text)
    requires Get(loaded, e.descriptor.name).None?
    ensures Get(loaded + [e], name) == if name == e.descriptor.name then Some(e) else Get(loaded, name)
  {
    var more, i := loaded + [e], Find(loaded, name);
    assert more[|loaded|] == e && forall j :: 0 <= j < |loaded| ==> more[j] == loaded[j];
  }

  lemma EvictedLookup(r: State, gone: Text, name: Text)
    requires Valid(r)
    ensures Get(Evict(r, gone).loaded, name) == if name == gone then None else Get(r.loaded, name)
  {
    var k := Find(r.loaded, gone);
    if k < |r.loaded| { GetAfterRemoval(r.loaded, k, name); }
  }

  // Seen as a map from names to modules, a load of an acceptable module removes that name, and on
  // success binds it to the new module on a loader never used before; every other name keeps its
  // module. The runtime loses exactly the nodes of that name. Anything unacceptable changes nothing.
  lemma LoadUpdatesOneName(r: State, file: ModuleFile, nodeType: NodeType, memory: bool, stored: bool, name: Text)
    requires Valid(r)
    ensures var (r', d) := Load(r, file, nodeType, memory, stored);
      var good := file.Module? && (nodeType == InvalidType || file.descriptor.nodeType == nodeType) && memory;
      && (d.Some? <==> good && stored)
      && (d.Some? ==> d.value == file.descriptor && r.nextLoader !in r.live)
      && Get(r'.loaded, name) ==
           (if !good || name != file.descriptor.name then Get(r.loaded, name)
            else if stored then Some(LoadedNode(r.nextLoader, file.descriptor)) else None)
      && (forall n :: n in r'.nodes <==>
            n in r.nodes && !(good && n.name == file.descriptor.name))
  {
    if Acceptable(file, nodeType, memory) {
      var ready, d := r.(nextLoader := r.nextLoader + 1), file.descriptor;
      NextLoaderKeepsValid(r);
      EvictedLookup(ready, d.name, name);
      EvictedLookup(ready, d.name, d.name);
      if stored { GetAfterAppend(Evict(ready, d.name).loaded, LoadedNode(r.nextLoader, d), name); }
    }
  }

  // A load that fails is not always without effect: when the module was good and only the final
  // insertion failed, the previous module of that name and its nodes are already gone.
  lemma FailedLoadKeepsStateIff(r: State, file: ModuleFile, nodeType: NodeType, memory: bool, stored: bool)
    requires Load(r, file, nodeType, memory, stored).1 == None
    ensures var r' := Load(r, file, nodeType, memory, stored).0;
      var good := file.Module? && (nodeType == InvalidType || file.descriptor.nodeType == nodeType) && memory;
      r'.loaded == r.loaded && r'.nodes == r.nodes <==> !(good && NameInUse(r, file.descriptor.name))
  {
    if file.Module? {
      var name := file.descriptor.name;
      KeepsAllIff(r.nodes, (n: Node) => n.name != name);
      var k := Find(r.loaded, name);
      if k < |r.loaded| { assert |Without(r.loaded, k)| < |r.loaded|; }
    }
  }

  // Every node the engine built is found again under its own name, with its own descriptor.
  lemma BackedNodeIsFound(r: State, n: Node)
    requires Valid(r) && n in r.nodes && n.origin.FromLoader?
    ensures Get(r.loaded, n.name).Some? && Get(r.loaded, n.name).value.loader == n.origin.loader
    ensures n.origin.loader in r.live
  {
    assert Backed(r, n);
  }

  // For instance: a module with one node, replaced under its own name when the collection is full.
  lemma FailedLoadLosesModule(r: State, d: Descriptor)
    requires r == State([LoadedNode(0, d)], {0}, 1, [Node(0, d.name, FromLoader(0))])
    ensures Valid(r)
    ensures var (r', loaded) := Load(r, Module(d), InvalidType, true, false);
      loaded.None? && Valid(r') && r'.loaded == [] && r'.nodes == []
  {
    assert r.loaded[0].loader == 0;
    KeepsNone(r.nodes, (n: Node) => n.name != d.name);
    LoadKeepsValid(r, Module(d), InvalidType, true, false);
  }
}
