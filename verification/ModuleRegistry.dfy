/** The engine's loaded-node collection and the runtime nodes built from it, changed step by step.
    DestroyLoader may only be called on a loader no runtime node refers to, and each caller shows it. */
module ModuleRegistry {
  import opened CStrings
  import opened Descriptors
  import opened Options
  import opened Registry

  class Modules {
    var loaded: seq<LoadedNode>
    var live: set<nat>
    var nextLoader: nat
    var nodes: seq<Node>

    ghost function Now(): State
      reads this
    {
      State(loaded, live, nextLoader, nodes)
    }

    // The runtime may already hold nodes that others put there.
    constructor (nodes: seq<Node>)
      requires forall n :: n in nodes ==> n.origin.External?
      ensures Valid(Now()) && Now() == State([], {}, 0, nodes)
    {
      this.loaded, this.live, this.nextLoader, this.nodes := [], {}, 0, nodes;
    }

    method CreateLoader() returns (loader: nat)
      modifies this
      ensures loader == old(nextLoader)
      ensures Now() == old(Now()).(live := old(live) + {loader}, nextLoader := loader + 1)
    {
      loader := nextLoader;
      live, nextLoader := live + {loader}, nextLoader + 1;
    }

    method DestroyLoader(loader: nat)
      requires loader in live && Unreferenced(Now(), loader)
      modifies this
      ensures Now() == old(Now()).(live := old(live) - {loader})
    {
      live := live - {loader};
    }

    method RemoveNodesByName(name: Text)
      modifies this
      ensures Now() == old(Now()).(nodes := KeepNodes(old(nodes), (n: Node) => n.name != name))
    {
      nodes := KeepNodes(nodes, (n: Node) => n.name != name);
    }

    // Removing an element of the collection destroys its loader.
    method RemoveLoaded(k: nat)
      requires k < |loaded| && loaded[k].loader in live && Unreferenced(Now(), loaded[k].loader)
      modifies this
      ensures Now() == old(Now()).(loaded := Without(old(loaded), k), live := old(live) - {old(loaded)[k].loader})
    {
      var gone := loaded[k].loader;
      loaded := Without(loaded, k);
      DestroyLoader(gone);
    }

    // Makes way for a module: first the runtime nodes of its name, then the entry they refer to.
    method RemoveNamesakes(name: Text, ghost before: State, loader: nat)
      requires Valid(before) && loader !in before.live
      requires Now() == before.(live := before.live + {loader})
      modifies this
      ensures Now() == Evict(before, name).(live := Evict(before, name).live + {loader})
    {
      RemoveNodesByName(name);
      var k := Find(loaded, name);
      if k < |loaded| {
        forall n | n in nodes ensures n.origin != FromLoader(loaded[k].loader) {
          if n.origin == FromLoader(loaded[k].loader) { OnlyNamesakes(before, k, n); }
        }
        RemoveLoaded(k);
      }
    }

    // Gives up a loader that was created on top of a valid state.
    method Discard(loader: nat, ghost before: State)
      requires Valid(before) && loader !in before.live
      requires Now() == before.(live := before.live + {loader})
      modifies this
      ensures Now() == before
    {
      Unused(before, loader);
      DestroyLoader(loader);
      assert live == before.live;
    }

    // The last step: the new entry goes in, or its loader is destroyed.
    method StoreOrDestroy(loader: nat, d: Descriptor, stored: bool, ghost before: State)
      requires Valid(before) && loader !in before.live && loader < before.nextLoader
      requires Now() == before.(live := before.live + {loader})
      modifies this
      ensures Now() == if stored then Store(before, loader, d) else before
    {
      if stored {
        loaded := loaded + [LoadedNode(loader, d)];
      } else {
        Discard(loader, before);
      }
    }

    // Keeps a loaded module under its name, replacing any module already there.
    method Register(loader: nat, d: Descriptor, stored: bool, ghost before: State)
      requires Valid(before) && loader !in before.live && loader < before.nextLoader
      requires Now() == before.(live := before.live + {loader})
      modifies this
      ensures Now() == Replaced(before, loader, d, stored)
    {
      RemoveNamesakes(d.name, before, loader);
      EvictKeepsValid(before, d.name);
      StoreOrDestroy(loader, d, stored, Evict(before, d.name));
    }

    // Checks the module behind a new loader and registers it, or gives the loader up.
    method RegisterIfAcceptable(loader: nat, file: ModuleFile, nodeType: NodeType, memory: bool, stored: bool,
                                ghost before: State)
      returns (descriptor: Option<Descriptor>)
      requires Valid(before) && loader !in before.live && loader < before.nextLoader && !file.NoModule?
      requires Now() == before.(live := before.live + {loader})
      modifies this
      ensures Now() == if Acceptable(file, nodeType, memory)
                       then Replaced(before, loader, file.descriptor, stored) else before
      ensures descriptor == if Acceptable(file, nodeType, memory) && stored then Some(file.descriptor) else None
    {
      if file.Nameless? || (nodeType != InvalidType && file.descriptor.nodeType != nodeType) || !memory {
        Discard(loader, before);
        return None;
      }
      Register(loader, file.descriptor, stored, before);
      return if stored then Some(file.descriptor) else None;
    }

    method LoadNodeDescriptorAs(file: ModuleFile, nodeType: NodeType, memory: bool, stored: bool)
      returns (descriptor: Option<Descriptor>)
      requires Valid(Now())
      modifies this
      ensures (Now(), descriptor) == Load(old(Now()), file, nodeType, memory, stored)
    {
      if file.NoModule? {
        return None;
      }
      NextLoaderKeepsValid(Now());
      ghost var ready := Now().(nextLoader := nextLoader + 1);
      var loader := CreateLoader();
      descriptor := RegisterIfAcceptable(loader, file, nodeType, memory, stored, ready);
    }

    method AddNode(name: Text, created: bool, accepted: bool, newId: nat) returns (node: Option<Node>)
      requires Valid(Now())
      modifies this
      ensures (Now(), node) == Add(old(Now()), name, created, accepted, newId)
    {
      var entry := Get(loaded, name);
      if entry.None? {
        return None;
      }
      if !IsValidType(entry.value.descriptor.nodeType) || !created {
        return None;
      }
      var n := Node(newId, name, FromLoader(entry.value.loader));
      if !accepted {
        return None;
      }
      nodes := nodes + [n];
      return Some(n);
    }

    method AddNodeAs(name: Text, nodeType: NodeType, created: bool, accepted: bool, newId: nat)
      returns (node: Option<Node>)
      requires Valid(Now())
      modifies this
      ensures (Now(), node) == AddAs(old(Now()), name, nodeType, created, accepted, newId)
    {
      if !IsValidType(nodeType) {
        return None;
      }
      var entry := Get(loaded, name);
      if entry.None? || entry.value.descriptor.nodeType != nodeType {
        return None;
      }
      node := AddNode(name, created, accepted, newId);
    }

    method RemoveNodeById(id: nat) returns (removed: bool)
      requires Valid(Now())
      modifies this
      ensures (Now(), removed) == Remove(old(Now()), id)
    {
      removed := exists n :: n in nodes && n.id == id;
      nodes := KeepNodes(nodes, (n: Node) => n.id != id);
    }
  }
}
