/**
  The mock object store: recursive merge of dynamic values, and the two lists (`mocks`, the live
  objects, and `created`, what the tests look at) that every writer keeps in step.
*/
module MockStore {
  import opened Strings

  /** A dynamic value: a map, a string, or anything else. */
  datatype Dyn = Map(fields: map<string, Dyn>) | Str(text: string) | Other(id: int)

  // ── deep_merge_dynamic ────────────────────────────────────────────────────

  function Merge(base: Dyn, patch: Dyn): Dyn
    decreases patch
  {
    if base.Map? && patch.Map? then
      Map(map k | k in base.fields.Keys + patch.fields.Keys ::
            if k in patch.fields then
              if k in base.fields then Merge(base.fields[k], patch.fields[k]) else patch.fields[k]
            else base.fields[k])
    else patch
  }

  lemma {:induction false} MergeSelf(p: Dyn)
    ensures Merge(p, p) == p
    decreases p
  {
    if p.Map? {
      forall k | k in p.fields ensures Merge(p.fields[k], p.fields[k]) == p.fields[k] {
        MergeSelf(p.fields[k]);
      }
      assert Merge(p, p).fields == p.fields;
    }
  }

  /** Applying a patch twice is applying it once. */
  lemma {:induction false} MergeTwice(b: Dyn, p: Dyn)
    ensures Merge(Merge(b, p), p) == Merge(b, p)
    decreases p
  {
    MergeSelf(p);
    if b.Map? && p.Map? {
      var m := Merge(b, p);
      forall k | k in m.fields ensures Merge(m, p).fields[k] == m.fields[k] {
        if k in p.fields {
          if k in b.fields {
            MergeTwice(b.fields[k], p.fields[k]);
          } else {
            MergeSelf(p.fields[k]);
          }
        }
      }
      assert Merge(m, p).fields == m.fields;
    }
  }

  /** Merging the merged value again into the same base changes nothing. */
  lemma {:induction false} MergeAbsorbs(b: Dyn, p: Dyn)
    ensures Merge(b, Merge(b, p)) == Merge(b, p)
    decreases p
  {
    if b.Map? && p.Map? {
      var m := Merge(b, p);
      forall k | k in m.fields ensures Merge(b, m).fields[k] == m.fields[k] {
        if k in p.fields && k in b.fields {
          MergeAbsorbs(b.fields[k], p.fields[k]);
        } else if k in b.fields {
          MergeSelf(b.fields[k]);
        }
      }
      assert Merge(b, m).fields == m.fields;
    }
  }

  /** What stands at a path of member names. */
  function At(d: Dyn, path: seq<string>): Option<Dyn> {
    if path == [] then Some(d)
    else if d.Map? && path[0] in d.fields then At(d.fields[path[0]], path[1..])
    else None
  }

  /** On the way to the path the patch has something that is no map. */
  predicate Cuts(p: Dyn, path: seq<string>) {
    path != [] && (!p.Map? || (path[0] in p.fields && Cuts(p.fields[path[0]], path[1..])))
  }

  /** The merge, path by path: what the patch sets reads as in the patch, merged into the base where both have
      something; what the patch leaves alone reads as in the base; and what lies below a value the patch sets
      is gone. */
  lemma {:induction false} MergeByPath(b: Dyn, p: Dyn, path: seq<string>)
    ensures At(p, path).Some? && !At(p, path).value.Map? ==> At(Merge(b, p), path) == At(p, path)
    ensures At(p, path).Some? && At(p, path).value.Map? ==>
      At(Merge(b, p), path) ==
        if At(b, path).Some? then Some(Merge(At(b, path).value, At(p, path).value)) else At(p, path)
    ensures At(p, path).None? && !Cuts(p, path) ==> At(Merge(b, p), path) == At(b, path)
    ensures Cuts(p, path) ==> At(Merge(b, p), path).None?
    decreases |path|
  {
    if path == [] {
    } else if b.Map? && p.Map? && path[0] in b.fields && path[0] in p.fields {
      MergeByPath(b.fields[path[0]], p.fields[path[0]], path[1..]);
    } else if p.Map? && path[0] in p.fields {
      CutIsNothing(p.fields[path[0]], path[1..]);
    }
  }

  lemma {:induction false} CutIsNothing(p: Dyn, path: seq<string>)
    ensures Cuts(p, path) ==> At(p, path).None?
    decreases |path|
  {
    if path == [] {
    } else if p.Map? && path[0] in p.fields {
      CutIsNothing(p.fields[path[0]], path[1..]);
    }
  }

  // ── Keys ──────────────────────────────────────────────────────────────────

  function TextField(d: Dyn, name: string): Option<string> {
    if d.Map? && name in d.fields && d.fields[name].Str? then Some(d.fields[name].text) else None
  }

  function MetaField(d: Dyn, name: string): Option<string> {
    if d.Map? && "metadata" in d.fields then TextField(d.fields["metadata"], name) else None
  }

  datatype Key = Key(kind: Option<string>, name: Option<string>, ns: Option<string>)

  function KeyOf(d: Dyn): Key {
    Key(TextField(d, "kind"), MetaField(d, "name"), MetaField(d, "namespace"))
  }

  /** The test the loops of `merge_with_existing` and `upsert_in_list` make on one entry. */
  predicate Hit(entry: Dyn, kind: string, obj: Dyn) {
    entry.Map? && KeyOf(entry) == Key(Some(kind), MetaField(obj, "name"), MetaField(obj, "namespace"))
  }

  /** Position of the first entry with the key of `obj` under `kind`, or the length of the list. */
  function FirstHit(list: seq<Dyn>, kind: string, obj: Dyn): (i: nat)
    ensures i <= |list|
    ensures i < |list| ==> Hit(list[i], kind, obj)
    ensures forall j :: 0 <= j < i ==> !Hit(list[j], kind, obj)
  {
    if list == [] then 0
    else if Hit(list[0], kind, obj) then 0
    else 1 + FirstHit(list[1..], kind, obj)
  }

  function Merged(list: seq<Dyn>, kind: string, obj: Dyn): Dyn {
    var i := FirstHit(list, kind, obj);
    if obj.Map? && i < |list| then Merge(list[i], obj) else obj
  }

  function Upserted(list: seq<Dyn>, kind: string, obj: Dyn): seq<Dyn> {
    var i := FirstHit(list, kind, obj);
    if obj.Map? && i < |list| then list[i := Merge(list[i], obj)] else list + [obj]
  }

  method MergeWithExisting(list: seq<Dyn>, kind: string, obj: Dyn) returns (r: Dyn)
    ensures r == Merged(list, kind, obj)
  {
    if !obj.Map? {
      return obj;
    }
    var i := 0;
    while i < |list|
      invariant i <= FirstHit(list, kind, obj)
    {
      if Hit(list[i], kind, obj) {
        return Merge(list[i], obj);
      }
      i := i + 1;
    }
    return obj;
  }

  method UpsertInList(list: seq<Dyn>, kind: string, obj: Dyn) returns (r: seq<Dyn>)
    ensures r == Upserted(list, kind, obj)
  {
    if !obj.Map? {
      return list + [obj];
    }
    var i := 0;
    while i < |list|
      invariant i <= FirstHit(list, kind, obj)
    {
      if Hit(list[i], kind, obj) {
        return list[i := Merge(list[i], obj)];
      }
      i := i + 1;
    }
    return list + [obj];
  }

  // ── The writers ───────────────────────────────────────────────────────────

  datatype Verb = Apply | Create | Replace

  datatype Write = Write(verb: Verb, kind: string, ns: Option<string>, data: Dyn)

  function WithKind(d: Dyn, kind: string): Dyn {
    if d.Map? && "kind" !in d.fields then Map(d.fields["kind" := Str(kind)]) else d
  }

  function WithNamespace(d: Dyn, ns: Option<string>): Dyn {
    if ns.Some? && d.Map? && "metadata" in d.fields && d.fields["metadata"].Map?
       && "namespace" !in d.fields["metadata"].fields
    then Map(d.fields["metadata" := Map(d.fields["metadata"].fields["namespace" := Str(ns.value)])])
    else d
  }

  /** What is written: only `apply` fills in the handle's namespace. */
  function Prepared(w: Write): Dyn {
    WithKind(if w.verb.Apply? then WithNamespace(w.data, w.ns) else w.data, w.kind)
  }

  /** What is written, member by member: the kind is filled in where there is none, the namespace where there is
      none, there is metadata to put it in, and the verb is `apply`; every other member reads as in the data. */
  lemma {:induction false} PreparedByPath(w: Write, path: seq<string>)
    requires w.data.Map? && path != []
    ensures path[0] != "kind" && path[0] != "metadata" ==> At(Prepared(w), path) == At(w.data, path)
    ensures path[0] == "metadata" && |path| > 1 && path[1] != "namespace" ==> At(Prepared(w), path) == At(w.data, path)
    ensures At(Prepared(w), ["kind"]) == if "kind" in w.data.fields then At(w.data, ["kind"]) else Some(Str(w.kind))
    ensures var space, meta := ["metadata", "namespace"], At(w.data, ["metadata"]);
      At(Prepared(w), space) ==
        if At(w.data, space) == None && meta.Some? && meta.value.Map? && w.ns.Some? && w.verb == Apply
        then Some(Str(w.ns.value)) else At(w.data, space)
  {
    hide Prepared;
    var d := w.data;
    var e := if w.verb.Apply? then WithNamespace(d, w.ns) else d;
    PreparedIs(w);
    AtMember(d, path);
    AtMember(e, path);
    AtMember(Prepared(w), path);
    AtMember(d, ["kind"]);
    AtMember(Prepared(w), ["kind"]);
    AtMember(d, ["metadata"]);
    AtMember(d, ["metadata", "namespace"]);
    AtMember(e, ["metadata", "namespace"]);
    AtMember(Prepared(w), ["metadata", "namespace"]);
  }

  lemma {:induction false} PreparedIs(w: Write)
    ensures Prepared(w) == WithKind(if w.verb.Apply? then WithNamespace(w.data, w.ns) else w.data, w.kind)
  {
  }

  lemma {:induction false} AtMember(d: Dyn, path: seq<string>)
    requires path != []
    ensures At(d, path) == if d.Map? && path[0] in d.fields then At(d.fields[path[0]], path[1..]) else None
    ensures |path| == 1 ==> At(d, path) == if d.Map? && path[0] in d.fields then Some(d.fields[path[0]]) else None
    ensures |path| > 1 && d.Map? && path[0] in d.fields ==>
      At(d, path) == var m := d.fields[path[0]];
        if m.Map? && path[1] in m.fields then At(m.fields[path[1]], path[2..]) else None
  {
    if |path| == 1 {
      assert path[1..] == [];
    } else {
      assert path[1..][1..] == path[2..];
    }
  }

  datatype Lists = Lists(mocks: seq<Dyn>, created: seq<Dyn>)

  function Written(l: Lists, w: Write): Lists {
    var obj := Prepared(w);
    Lists(Upserted(l.mocks, w.kind, obj), Upserted(l.created, w.kind, Merged(l.mocks, w.kind, obj)))
  }

  function WrittenAll(l: Lists, ws: seq<Write>): Lists
    decreases |ws|
  {
    if ws == [] then l else WrittenAll(Written(l, ws[0]), ws[1..])
  }

  /** The lists shared by every handle of one engine. */
  class Store {
    var mocks: seq<Dyn>
    var created: seq<Dyn>

    constructor (mocks: seq<Dyn>)
      ensures this.mocks == mocks && this.created == []
    {
      this.mocks, this.created := mocks, [];
    }

    function View(): Lists
      reads this
    {
      Lists(mocks, created)
    }

    method RhaiApply(kind: string, ns: Option<string>, data: Dyn) returns (obj: Dyn)
      modifies this
      ensures obj == Prepared(Write(Apply, kind, ns, data))
      ensures View() == Written(old(View()), Write(Apply, kind, ns, data))
    {
      obj := WithKind(WithNamespace(data, ns), kind);
      var merged := MergeWithExisting(mocks, kind, obj);
      created := UpsertInList(created, kind, merged);
      mocks := UpsertInList(mocks, kind, obj);
    }

    method RhaiReplace(kind: string, ns: Option<string>, data: Dyn) returns (obj: Dyn)
      modifies this
      ensures obj == Prepared(Write(Replace, kind, ns, data))
      ensures View() == Written(old(View()), Write(Replace, kind, ns, data))
    {
      obj := WithKind(data, kind);
      var merged := MergeWithExisting(mocks, kind, obj);
      created := UpsertInList(created, kind, merged);
      mocks := UpsertInList(mocks, kind, obj);
    }

    method RhaiCreate(kind: string, ns: Option<string>, data: Dyn) returns (obj: Dyn)
      modifies this
      ensures obj == Prepared(Write(Create, kind, ns, data))
      ensures View() == Written(old(View()), Write(Create, kind, ns, data))
    {
      obj := WithKind(data, kind);
      var merged := MergeWithExisting(mocks, kind, obj);
      created := UpsertInList(created, kind, merged);
      mocks := UpsertInList(mocks, kind, obj);
    }
  }

  // ── `created` mirrors the live objects ────────────────────────────────────

  /** The object written is a map whose kind is absent or the handle's own. */
  predicate OwnKind(w: Write) {
    w.data.Map? && ("kind" in w.data.fields ==> w.data.fields["kind"] == Str(w.kind))
  }

  function FirstLive(list: seq<Dyn>, key: Key): Option<Dyn> {
    if list == [] then None
    else if list[0].Map? && KeyOf(list[0]) == key then Some(list[0])
    else FirstLive(list[1..], key)
  }

  /** One entry per key in `created`, each equal to the first live entry with its key. */
  ghost predicate Mirrors(l: Lists) {
    && (forall i :: 0 <= i < |l.created| ==>
          l.created[i].Map? && FirstLive(l.mocks, KeyOf(l.created[i])) == Some(l.created[i]))
    && (forall i, j :: 0 <= i < j < |l.created| ==> KeyOf(l.created[i]) != KeyOf(l.created[j]))
  }

  lemma {:induction false} PreparedKey(w: Write)
    requires OwnKind(w)
    ensures Prepared(w).Map? && TextField(Prepared(w), "kind") == Some(w.kind)
  {
  }

  lemma {:induction false} MergeKeepsKey(entry: Dyn, obj: Dyn)
    requires entry.Map? && obj.Map? && KeyOf(entry) == KeyOf(obj)
    ensures Merge(entry, obj).Map? && KeyOf(Merge(entry, obj)) == KeyOf(obj)
  {
    var m := Merge(entry, obj);
    MergeKeepsText(entry, obj, "kind");
    if "metadata" in entry.fields && "metadata" in obj.fields {
      MergeKeepsText(entry.fields["metadata"], obj.fields["metadata"], "name");
      MergeKeepsText(entry.fields["metadata"], obj.fields["metadata"], "namespace");
    }
  }

  lemma {:induction false} MergeKeepsText(a: Dyn, b: Dyn, name: string)
    requires TextField(a, name) == TextField(b, name)
    ensures TextField(Merge(a, b), name) == TextField(b, name)
  {
  }

  lemma {:induction false} FirstLiveUpserted(list: seq<Dyn>, kind: string, obj: Dyn, key: Key)
    requires obj.Map? && TextField(obj, "kind") == Some(kind)
    ensures FirstLive(Upserted(list, kind, obj), key) ==
      if key == KeyOf(obj) then Some(Merged(list, kind, obj)) else FirstLive(list, key)
    decreases |list|
  {
    if list == [] {
      assert Upserted(list, kind, obj) == [obj];
      assert [obj][1..] == [];
    } else if Hit(list[0], kind, obj) {
      MergeKeepsKey(list[0], obj);
      var m := Merge(list[0], obj);
      assert Upserted(list, kind, obj) == [m] + list[1..];
    } else {
      FirstLiveUpserted(list[1..], kind, obj, key);
      assert Upserted(list, kind, obj) == [list[0]] + Upserted(list[1..], kind, obj);
      assert Merged(list, kind, obj) == Merged(list[1..], kind, obj);
    }
  }

  lemma {:induction false} MergedIsMergeWithFirst(list: seq<Dyn>, kind: string, obj: Dyn)
    requires obj.Map? && TextField(obj, "kind") == Some(kind)
    ensures Merged(list, kind, obj) ==
      var live := FirstLive(list, KeyOf(obj)); if live.Some? then Merge(live.value, obj) else obj
    ensures Merged(list, kind, obj).Map? && KeyOf(Merged(list, kind, obj)) == KeyOf(obj)
    decreases |list|
  {
    if list == [] {
    } else {
      if Hit(list[0], kind, obj) {
        MergeKeepsKey(list[0], obj);
      } else {
        MergedIsMergeWithFirst(list[1..], kind, obj);
        assert Merged(list, kind, obj) == Merged(list[1..], kind, obj);
      }
    }
  }

  lemma {:induction false} WriteKeepsMirror(l: Lists, w: Write)
    requires Mirrors(l) && OwnKind(w)
    ensures Mirrors(Written(l, w))
  {
    PreparedKey(w);
    var obj := Prepared(w);
    var merged := Merged(l.mocks, w.kind, obj);
    MergedIsMergeWithFirst(l.mocks, w.kind, obj);
    var i := FirstHit(l.created, w.kind, merged);
    var t := Written(l, w);
    if i < |l.created| {
      assert KeyOf(l.created[i]) == KeyOf(obj);
      MergeAbsorbs(l.created[i], obj);
      assert t.created == l.created[i := merged];
    } else {
      assert t.created == l.created + [merged];
    }
    assert forall j :: 0 <= j < |l.created| && j != i ==> KeyOf(l.created[j]) != KeyOf(obj);
    forall j | 0 <= j < |t.created|
      ensures t.created[j].Map? && FirstLive(t.mocks, KeyOf(t.created[j])) == Some(t.created[j])
    {
      FirstLiveUpserted(l.mocks, w.kind, obj, KeyOf(t.created[j]));
    }
  }

  /** Over any sequence of apply, create and replace of maps of the handle's own kind, through any
      handles: `created` holds one entry per (kind, name, namespace), and it is the first live one. */
  lemma {:induction false} CreatedMirrorsLive(l: Lists, ws: seq<Write>)
    requires Mirrors(l) && forall i :: 0 <= i < |ws| ==> OwnKind(ws[i])
    ensures Mirrors(WrittenAll(l, ws))
    decreases |ws|
  {
    if ws == [] {
    } else {
      WriteKeepsMirror(l, ws[0]);
      CreatedMirrorsLive(Written(l, ws[0]), ws[1..]);
    }
  }

  /** What was just written is in `created`, as the live object it now is. */
  lemma {:induction false} WrittenIsCreated(mocks: seq<Dyn>, ws: seq<Write>, w: Write) returns (i: nat)
    requires OwnKind(w) && forall i :: 0 <= i < |ws| ==> OwnKind(ws[i])
    ensures var l := Written(WrittenAll(Lists(mocks, []), ws), w);
      i < |l.created| && KeyOf(l.created[i]) == KeyOf(Prepared(w))
      && FirstLive(l.mocks, KeyOf(Prepared(w))) == Some(l.created[i])
  {
    var before := WrittenAll(Lists(mocks, []), ws);
    CreatedMirrorsLive(Lists(mocks, []), ws);
    WriteKeepsMirror(before, w);
    PreparedKey(w);
    var obj := Prepared(w);
    var merged := Merged(before.mocks, w.kind, obj);
    MergedIsMergeWithFirst(before.mocks, w.kind, obj);
    var l := Written(before, w);
    i := FirstHit(before.created, w.kind, merged);
    if i < |before.created| {
      MergeKeepsKey(before.created[i], merged);
      assert l.created[i] == Merge(before.created[i], merged);
    } else {
      assert l.created[i] == merged;
    }
    assert KeyOf(l.created[i]) == KeyOf(obj);
    assert FirstLive(l.mocks, KeyOf(l.created[i])) == Some(l.created[i]);
  }

  /** Any other write breaks it: the same object written twice is in `created` twice, or is no map. */
  lemma {:induction false} ForeignWriteDuplicates(w: Write)
    requires !OwnKind(w)
    ensures !Mirrors(Written(Written(Lists([], []), w), w))
  {
    var obj := Prepared(w);
    var l := Written(Lists([], []), w);
    assert l == Lists([obj], [obj]);
    assert !Hit(obj, w.kind, obj);
    var l2 := Written(l, w);
    assert l2 == Lists([obj, obj], [obj, obj]);
    assert KeyOf(l2.created[0]) == KeyOf(l2.created[1]);
  }

  /** So the writes that keep every mirror are exactly those of maps of the handle's own kind. */
  lemma {:induction false} MirrorKeptIffOwnKind(w: Write)
    ensures (forall l: Lists | Mirrors(l) :: Mirrors(Written(l, w))) <==> OwnKind(w)
  {
    hide Mirrors, Written;
    if OwnKind(w) {
      forall l: Lists | Mirrors(l) ensures Mirrors(Written(l, w)) {
        WriteKeepsMirror(l, w);
      }
    } else {
      var none := Lists([], []);
      NothingMirrors();
      ForeignWriteDuplicates(w);
      assert !Mirrors(Written(none, w)) || !Mirrors(Written(Written(none, w), w));
    }
  }

  lemma {:induction false} NothingMirrors()
    ensures Mirrors(Lists([], []))
  {
  }
}
