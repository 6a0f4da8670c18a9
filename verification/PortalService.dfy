/** native/spaces_portal.c: the hash tables in place, each method proved against PortalTables. */
module PortalService {
  import opened Text
  import opened P = PortalTables

  class ObjectTable {
    var guest: map<Path, nat>
    var host: map<Path, nat>
    var objects: map<nat, Entry>
    var next: nat

    constructor ()
      ensures Model() == EMPTY
    {
      guest, host, objects, next := map[], map[], map[], 0;
    }

    function Model(): Table
      reads this
    {
      Table(guest, host, objects, next)
    }

    /** register_request and register_session; `exported` is what the bus says. */
    method Register(entry: Entry, exported: bool) returns (registered: bool)
      requires Kept(Model())
      modifies this
      ensures registered == (exported && entry.guest !in old(guest))
      ensures Model() == (if registered then Insert(old(Model()), entry) else old(Model())) && Kept(Model())
      ensures old(OneToOne(Model())) && (entry.host.Some? ==> entry.host.value !in old(host)) ==> OneToOne(Model())
    {
      registered := exported && entry.guest !in guest;
      if registered {
        InsertKept(Model(), entry);
        objects := objects[next := entry];
        guest := guest[entry.guest := next];
        if entry.host.Some? {
          host := host[entry.host.value := next];
        }
        next := next + 1;
      }
    }

    /** The two removals that end a request or session. */
    method RemoveEntry(path: Path)
      requires Kept(Model()) && path in guest
      modifies this
      ensures Model() == Remove(old(Model()), path) && Kept(Model())
      ensures old(OneToOne(Model())) ==> OneToOne(Model())
    {
      RemoveKept(Model(), path);
      var id := guest[path];
      if objects[id].host.Some? {
        host := host - {objects[id].host.value};
      }
      guest := guest - {path};
      objects := objects - {id};
    }

    /** host_portal_signal for the Response of a request: its last answer ends it, and its first once it is cancelled. */
    method OnResponse(path: Path) returns (known: bool)
      requires Kept(Model())
      modifies this
      ensures known == (path in old(host))
      ensures Model() == Step(State(old(Model()), EMPTY), Response(path)).requests && Kept(Model())
      ensures old(OneToOne(Model())) ==> OneToOne(Model())
    {
      known := path in host;
      if known {
        var request := objects[host[path]];
        if request.cancelled || !request.persistent {
          RemoveEntry(request.guest);
        }
      }
    }

    /** host_portal_signal for the Closed of a session. */
    method OnClosed(path: Path) returns (known: bool)
      requires Kept(Model())
      modifies this
      ensures known == (path in old(host))
      ensures Model() == Step(State(EMPTY, old(Model())), Closed(path)).sessions && Kept(Model())
      ensures old(OneToOne(Model())) ==> OneToOne(Model())
    {
      known := path in host;
      if known {
        RemoveEntry(objects[host[path]].guest);
      }
    }

    /** lifecycle_call for a request: its owner alone may close it. */
    method OnClose(sender: string, path: Path) returns (permitted: bool)
      requires Kept(Model())
      modifies this
      ensures permitted == (path in old(guest) && old(objects[guest[path]].owner) == sender)
      ensures Model() == Step(State(old(Model()), EMPTY), Cancel(sender, path)).requests && Kept(Model())
      ensures old(OneToOne(Model())) ==> OneToOne(Model())
    {
      permitted := path in guest && objects[guest[path]].owner == sender;
      if permitted {
        var id := guest[path];
        CancelKept(Model(), id);
        objects := objects[id := objects[id].(cancelled := true)];
      }
    }

    /** guest_name_changed: the paths of the owner's entries are collected first, then each is removed. */
    method OwnerGone(owner: string)
      requires Kept(Model())
      modifies this
      ensures Model() == RemoveOwner(old(Model()), owner) && Kept(Model())
      ensures old(OneToOne(Model())) ==> OneToOne(Model())
    {
      ghost var t := Model();
      var remove := PathsOf(owner);
      assert Listed(remove, |remove|) == P.PathsOf(t, owner);
      assert forall k :: 0 <= k < |remove| ==> remove[k] in guest;
      hide Kept, Listed, Model, OneToOne, RemovePaths;
      OwnerLeavesExactly(t, owner);
      RemoveAll(remove);
    }

    method RemoveAll(paths: seq<Path>)
      requires Kept(Model())
      requires forall i, j :: 0 <= i < j < |paths| ==> paths[i] != paths[j]
      requires forall k :: 0 <= k < |paths| ==> paths[k] in guest
      modifies this
      ensures Model() == RemovePaths(old(Model()), Listed(paths, |paths|)) && Kept(Model())
    {
      ghost var t := Model();
      assert t.guest == guest;
      RemoveNone(t);
      assert Listed(paths, 0) == {};
      hide Listed, RemovePaths, Remove, Kept;
      var index := 0;
      while index < |paths|
        invariant 0 <= index <= |paths| && Kept(Model())
        invariant Model() == RemovePaths(t, Listed(paths, index))
      {
        RemoveNext(t, paths, index);
        assert paths[index] in Model().guest;
        RemoveEntry(paths[index]);
        index := index + 1;
      }
    }

    /** The paths of an owner's entries, each once, in the order the hash table gives them. */
    method PathsOf(owner: string) returns (paths: seq<Path>)
      requires Kept(Model())
      ensures forall i, j :: 0 <= i < j < |paths| ==> paths[i] != paths[j]
      ensures forall path :: path in paths <==> path in guest && objects[guest[path]].owner == owner
    {
      paths := [];
      var rest := guest.Keys;
      while rest != {}
        invariant rest <= guest.Keys
        invariant forall i, j :: 0 <= i < j < |paths| ==> paths[i] != paths[j]
        invariant forall path :: path in paths <==>
                    path in guest && path !in rest && objects[guest[path]].owner == owner
        decreases rest
      {
        var path :| path in rest;
        rest := rest - {path};
        if objects[guest[path]].owner == owner {
          paths := paths + [path];
        }
      }
    }
  }

  ghost function Listed(paths: seq<Path>, n: nat): set<Path>
    requires n <= |paths|
  {
    set k | 0 <= k < n :: paths[k]
  }

  lemma RemoveNone(t: Table)
    ensures RemovePaths(t, {}) == t
  {
  }

  lemma RemoveNext(t: Table, paths: seq<Path>, n: nat)
    requires Kept(t) && n < |paths| && paths[n] in t.guest
    requires forall i, j :: 0 <= i < j < |paths| ==> paths[i] != paths[j]
    ensures var before := RemovePaths(t, Listed(paths, n));
      && paths[n] in before.guest && before.guest[paths[n]] in before.objects
      && Remove(before, paths[n]) == RemovePaths(t, Listed(paths, n + 1))
  {
    var gone, path := Listed(paths, n), paths[n];
    var id := t.guest[path];
    ListedNext(paths, n);
    IdsGrow(t, gone, path);
    HostsGrow(t, IdsOf(t, gone), id);
    hide HostsOf, IdsOf, Kept, Listed;
    var ids := IdsOf(t, gone);
    MinusOne(t.guest, gone, path);
    MinusOne(t.objects, ids, id);
    if t.objects[id].host.Some? {
      MinusOne(t.host, HostsOf(t, ids), t.objects[id].host.value);
    }
  }

  lemma ListedNext(paths: seq<Path>, n: nat)
    requires n < |paths| && forall i, j :: 0 <= i < j < |paths| ==> paths[i] != paths[j]
    ensures paths[n] !in Listed(paths, n) && Listed(paths, n + 1) == Listed(paths, n) + {paths[n]}
  {
  }

  lemma IdsGrow(t: Table, gone: set<Path>, path: Path)
    requires Kept(t) && path in t.guest && path !in gone
    ensures IdsOf(t, gone + {path}) == IdsOf(t, gone) + {t.guest[path]} && t.guest[path] !in IdsOf(t, gone)
    ensures t.guest[path] in t.objects
  {
  }

  lemma MinusOne<K, V>(m: map<K, V>, gone: set<K>, key: K)
    ensures m - gone - {key} == m - (gone + {key})
    ensures key in m && key !in gone ==> key in m - gone && (m - gone)[key] == m[key]
  {
  }

  lemma HostsGrow(t: Table, ids: set<nat>, id: nat)
    requires id in t.objects
    ensures HostsOf(t, ids + {id}) ==
            if t.objects[id].host.Some? then HostsOf(t, ids) + {t.objects[id].host.value} else HostsOf(t, ids)
  {
    forall path ensures path in HostsOf(t, ids + {id}) <==>
                        path in HostsOf(t, ids) || (t.objects[id].host == Some(path)) {
      if path in HostsOf(t, ids + {id}) {
        var other :| other in ids + {id} && other in t.objects && t.objects[other].host == Some(path);
      }
      if t.objects[id].host == Some(path) {
        assert id in ids + {id};
      }
    }
  }

  /** translate_object_paths: containers are rebuilt child by child. */
  method TranslateValue(s: State, v: Value, toHost: bool) returns (mapped: Value)
    ensures mapped == Translate(s, v, toHost)
    decreases v
  {
    match v
    case ObjectPath(path) => mapped := ObjectPath(TranslatePath(s, path, toHost));
    case Leaf(_, _) => mapped := v;
    case Variant(inner) =>
      var child := TranslateValue(s, inner, toHost);
      mapped := Variant(child);
    case Array(element, items) =>
      var children := TranslateItems(s, items, toHost);
      mapped := Array(element, children);
    case Tuple(fields) =>
      var children := TranslateItems(s, fields, toHost);
      mapped := Tuple(children);
    case DictEntry(key, value) =>
      var first := TranslateValue(s, key, toHost);
      var second := TranslateValue(s, value, toHost);
      mapped := DictEntry(first, second);
    case Maybe(element, just) =>
      mapped := v;
      if just.Some? {
        var child := TranslateValue(s, just.value, toHost);
        mapped := Maybe(element, Some(child));
      }
  }

  method TranslateItems(s: State, items: seq<Value>, toHost: bool) returns (children: seq<Value>)
    ensures children == TranslateAll(s, items, toHost)
    decreases items
  {
    children := [];
    var index := 0;
    while index < |items|
      invariant 0 <= index <= |items| && |children| == index
      invariant forall k :: 0 <= k < index ==> children[k] == Translate(s, items[k], toHost)
    {
      var child := TranslateValue(s, items[index], toHost);
      children := children + [child];
      index := index + 1;
    }
  }
}
