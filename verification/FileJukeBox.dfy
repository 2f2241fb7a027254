/**
  The file jukebox: one YAML file per (category, name) and an index, all in one directory.
  File contents are kept as the values that were serialised into them. A file name is joined to the
  directory's path, so different names can mean one file (`./a` and `a`); where names end up is a
  parameter.
*/
module FileJukeBox {
  import opened Strings

  const INDEX_FILE: string := "index.yaml"

  datatype Key = Key(category: string, name: string)
  datatype Pkg = Pkg(key: Key, body: int)
  datatype Entry = Entry(key: Key, file: string)
  datatype File = IndexFile(entries: seq<Entry>) | PkgFile(pkgs: seq<Pkg>)
  type Dir = map<string, File>

  /** Which file of the directory a name means. */
  type Place = string -> string
  datatype Result<+T> = Ok(value: T) | YamlError

  function FileName(k: Key): string {
    k.category + "_" + k.name + ".yaml"
  }

  function FileOf(at: Place, k: Key): string {
    at(FileName(k))
  }

  function OfKey(pkgs: seq<Pkg>, k: Key): seq<Pkg> {
    if pkgs == [] then []
    else OfKey(pkgs[..|pkgs| - 1], k) + (if pkgs[|pkgs| - 1].key == k then [pkgs[|pkgs| - 1]] else [])
  }

  // ── Grouping (an ordered map from key to packages) ────────────────────────

  datatype Group = Group(key: Key, pkgs: seq<Pkg>)

  predicate TextLess(a: string, b: string) {
    b != "" && (a == "" || a[0] < b[0] || (a[0] == b[0] && TextLess(a[1..], b[1..])))
  }

  predicate KeyLess(a: Key, b: Key) {
    TextLess(a.category, b.category) || (a.category == b.category && TextLess(a.name, b.name))
  }

  function Position(groups: seq<Group>, k: Key): (i: nat)
    ensures i <= |groups| && (i < |groups| ==> groups[i].key == k)
    ensures forall j :: 0 <= j < i ==> groups[j].key != k
  {
    if groups == [] || groups[0].key == k then 0 else 1 + Position(groups[1..], k)
  }

  function SortedPlace(groups: seq<Group>, k: Key): (i: nat)
    ensures i <= |groups|
  {
    if groups == [] || KeyLess(k, groups[0].key) then 0 else 1 + SortedPlace(groups[1..], k)
  }

  /** `entry(key).or_default().push(p)` on the ordered map. */
  function Pushed(groups: seq<Group>, p: Pkg): seq<Group> {
    var i := Position(groups, p.key);
    if i < |groups| then groups[i := Group(p.key, groups[i].pkgs + [p])]
    else
      var j := SortedPlace(groups, p.key);
      groups[..j] + [Group(p.key, [p])] + groups[j..]
  }

  function Grouped(pkgs: seq<Pkg>): seq<Group> {
    if pkgs == [] then [] else Pushed(Grouped(pkgs[..|pkgs| - 1]), pkgs[|pkgs| - 1])
  }

  predicate HasGroup(groups: seq<Group>, k: Key) {
    exists i | 0 <= i < |groups| :: groups[i].key == k
  }

  ghost predicate GroupsOf(groups: seq<Group>, pkgs: seq<Pkg>) {
    && (forall i, j :: 0 <= i < j < |groups| ==> groups[i].key != groups[j].key)
    && (forall i :: 0 <= i < |groups| ==> groups[i].pkgs == OfKey(pkgs, groups[i].key) && groups[i].pkgs != [])
    && (forall i :: 0 <= i < |pkgs| ==> HasGroup(groups, pkgs[i].key))
  }

  lemma {:induction false} PushedOnExisting(gs: seq<Group>, front: seq<Pkg>, p: Pkg)
    requires GroupsOf(gs, front) && Position(gs, p.key) < |gs|
    ensures GroupsOf(Pushed(gs, p), front + [p])
  {
    var pkgs, i, t := front + [p], Position(gs, p.key), Pushed(gs, p);
    assert pkgs[..|front|] == front;
    assert forall j :: 0 <= j < |t| ==> t[j].key == gs[j].key;
    forall m | 0 <= m < |pkgs| ensures HasGroup(t, pkgs[m].key) {
      if m < |front| {
        assert HasGroup(gs, front[m].key);
        var j :| 0 <= j < |gs| && gs[j].key == front[m].key;
        assert t[j].key == pkgs[m].key;
      } else {
        assert t[i].key == pkgs[m].key;
      }
    }
  }

  /** `t` is `gs` with `n` put in at `place`. */
  ghost predicate Inserted(gs: seq<Group>, place: nat, n: Group, t: seq<Group>) {
    && place <= |gs| && |t| == |gs| + 1 && t[place] == n
    && (forall j :: 0 <= j < place ==> t[j] == gs[j])
    && (forall j :: place < j < |t| ==> t[j] == gs[j - 1])
  }

  lemma {:induction false} InsertedGroups(gs: seq<Group>, place: nat, n: Group, t: seq<Group>)
    requires Inserted(gs, place, n, t) && !HasGroup(gs, n.key)
    requires forall i, j :: 0 <= i < j < |gs| ==> gs[i].key != gs[j].key
    ensures forall i, j :: 0 <= i < j < |t| ==> t[i].key != t[j].key
    ensures forall k :: HasGroup(gs, k) || k == n.key ==> HasGroup(t, k)
  {
    forall k | HasGroup(gs, k) || k == n.key ensures HasGroup(t, k) {
      if k == n.key {
        assert t[place].key == k;
      } else {
        var j :| 0 <= j < |gs| && gs[j].key == k;
        assert t[if j < place then j else j + 1].key == k;
      }
    }
    forall i, j | 0 <= i < j < |t| ensures t[i].key != t[j].key {
      assert i == place || t[i] == gs[if i < place then i else i - 1];
      assert j == place || t[j] == gs[if j < place then j else j - 1];
    }
  }

  lemma {:induction false} OfKeyOneMore(front: seq<Pkg>, p: Pkg, k: Key)
    ensures OfKey(front + [p], k) == OfKey(front, k) + (if p.key == k then [p] else [])
    ensures p.key != k ==> OfKey(front + [p], k) == OfKey(front, k)
  {
    assert (front + [p])[..|front|] == front;
  }

  lemma {:induction false} PushedOnNew(gs: seq<Group>, front: seq<Pkg>, p: Pkg)
    requires GroupsOf(gs, front) && Position(gs, p.key) == |gs|
    ensures GroupsOf(Pushed(gs, p), front + [p])
  {
    hide OfKey, SortedPlace;
    var pkgs, place, t := front + [p], SortedPlace(gs, p.key), Pushed(gs, p);
    NothingOfKey(front, p.key, gs);
    var n := Group(p.key, [p]);
    assert Inserted(gs, place, n, t);
    InsertedGroups(gs, place, n, t);
    forall j | 0 <= j < |t| ensures t[j].pkgs == OfKey(pkgs, t[j].key) && t[j].pkgs != [] {
      OfKeyOneMore(front, p, t[j].key);
      if j != place {
        var i := if j < place then j else j - 1;
        assert t[j] == gs[i] && gs[i].key != p.key;
      }
    }
    forall m | 0 <= m < |pkgs| ensures HasGroup(t, pkgs[m].key) {
      assert m == |front| || (pkgs[m] == front[m] && HasGroup(gs, front[m].key));
    }
  }

  lemma {:induction false} GroupedIsPartition(pkgs: seq<Pkg>)
    ensures GroupsOf(Grouped(pkgs), pkgs)
  {
    if pkgs == [] {
    } else {
      var front, p := pkgs[..|pkgs| - 1], pkgs[|pkgs| - 1];
      GroupedIsPartition(front);
      assert pkgs == front + [p];
      if Position(Grouped(front), p.key) < |Grouped(front)| {
        PushedOnExisting(Grouped(front), front, p);
      } else {
        PushedOnNew(Grouped(front), front, p);
      }
    }
  }

  /** Texts compare at their first difference, and a text is below its continuations. */
  lemma {:induction false} TextLessMeaning(common: string, a: string, b: string)
    ensures a == "" && b != "" ==> TextLess(common + a, common + b)
    ensures a != "" && b != "" && a[0] < b[0] ==> TextLess(common + a, common + b)
    ensures b == "" || (a != "" && b != "" && a[0] > b[0]) ==> !TextLess(common + a, common + b)
  {
    if common == "" {
      assert common + a == a && common + b == b;
    } else {
      assert (common + a)[1..] == common[1..] + a && (common + b)[1..] == common[1..] + b;
      TextLessMeaning(common[1..], a, b);
    }
  }

  lemma {:induction false} TextLessOrder(a: string, b: string, c: string)
    ensures !(TextLess(a, b) && TextLess(b, a)) && (TextLess(a, b) || TextLess(b, a) || a == b) && !TextLess(a, a)
    ensures TextLess(a, b) && TextLess(b, c) ==> TextLess(a, c)
  {
    if a == "" || b == "" {
      if a != "" {
        TextLessOrder(a[1..], a[1..], a[1..]);
      }
    } else {
      TextLessOrder(a[1..], b[1..], if c == "" then c else c[1..]);
      assert a == [a[0]] + a[1..] && b == [b[0]] + b[1..];
    }
  }

  lemma {:induction false} KeyLessOrder(a: Key, b: Key, c: Key)
    ensures !(KeyLess(a, b) && KeyLess(b, a)) && (KeyLess(a, b) || KeyLess(b, a) || a == b) && !KeyLess(a, a)
    ensures KeyLess(a, b) && KeyLess(b, c) ==> KeyLess(a, c)
    ensures TextLess(a.category, b.category) ==> KeyLess(a, b)
    ensures a.category == b.category ==> (KeyLess(a, b) <==> TextLess(a.name, b.name))
  {
    TextLessOrder(a.category, b.category, c.category);
    TextLessOrder(b.category, c.category, a.category);
    TextLessOrder(a.name, b.name, c.name);
    TextLessOrder(b.name, c.name, a.name);
  }

  ghost predicate InKeyOrder(groups: seq<Group>) {
    forall i, j :: 0 <= i < j < |groups| ==> KeyLess(groups[i].key, groups[j].key)
  }

  lemma {:induction false} PlaceSeparates(groups: seq<Group>, k: Key)
    requires InKeyOrder(groups) && Position(groups, k) == |groups|
    ensures forall i :: 0 <= i < SortedPlace(groups, k) ==> KeyLess(groups[i].key, k)
    ensures forall i :: SortedPlace(groups, k) <= i < |groups| ==> KeyLess(k, groups[i].key)
  {
    hide KeyLess;
    if groups == [] {
    } else if KeyLess(k, groups[0].key) {
      forall i | 0 <= i < |groups| ensures KeyLess(k, groups[i].key) {
        KeyLessOrder(k, groups[0].key, groups[i].key);
      }
    } else {
      assert groups[0].key != k;
      KeyLessOrder(k, groups[0].key, k);
      PlaceSeparates(groups[1..], k);
      var p := SortedPlace(groups[1..], k);
      forall i | 0 <= i < p + 1 ensures KeyLess(groups[i].key, k) {
        assert i > 0 ==> groups[i] == groups[1..][i - 1];
      }
      forall i | p + 1 <= i < |groups| ensures KeyLess(k, groups[i].key) {
        assert groups[i] == groups[1..][i - 1];
      }
    }
  }

  /** One write stores its keys in the order of category, then name. */
  lemma {:induction false} GroupedInKeyOrder(pkgs: seq<Pkg>)
    ensures InKeyOrder(Grouped(pkgs))
  {
    hide KeyLess;
    if pkgs == [] {
    } else {
      var gs, p := Grouped(pkgs[..|pkgs| - 1]), pkgs[|pkgs| - 1];
      GroupedInKeyOrder(pkgs[..|pkgs| - 1]);
      var t := Pushed(gs, p);
      if Position(gs, p.key) < |gs| {
        assert forall i :: 0 <= i < |t| ==> t[i].key == gs[i].key;
      } else {
        PlaceSeparates(gs, p.key);
        var place := SortedPlace(gs, p.key);
        assert Inserted(gs, place, Group(p.key, [p]), t);
      }
    }
  }

  lemma {:induction false} NothingOfKey(pkgs: seq<Pkg>, k: Key, groups: seq<Group>)
    requires forall i :: 0 <= i < |pkgs| ==> HasGroup(groups, pkgs[i].key)
    requires forall i :: 0 <= i < |groups| ==> groups[i].key != k
    ensures OfKey(pkgs, k) == []
  {
    if pkgs == [] {
    } else {
      NothingOfKey(pkgs[..|pkgs| - 1], k, groups);
      assert HasGroup(groups, pkgs[|pkgs| - 1].key);
    }
  }

  lemma {:induction false} OfKeyMember(pkgs: seq<Pkg>, k: Key)
    ensures OfKey(pkgs, k) != [] <==> exists p :: p in pkgs && p.key == k
    ensures forall p | p in OfKey(pkgs, k) :: p.key == k
  {
    if pkgs == [] {
    } else {
      var front, p := pkgs[..|pkgs| - 1], pkgs[|pkgs| - 1];
      OfKeyMember(front, k);
      assert pkgs == front + [p];
    }
  }

  lemma {:induction false} GroupKeys(pkgs: seq<Pkg>, k: Key)
    ensures HasGroup(Grouped(pkgs), k) <==> OfKey(pkgs, k) != []
  {
    GroupedIsPartition(pkgs);
    OfKeyMember(pkgs, k);
  }

  // ── write_to_cache ────────────────────────────────────────────────────────

  predicate HasKey(entries: seq<Entry>, k: Key) {
    exists i | 0 <= i < |entries| :: entries[i].key == k
  }

  datatype Progress = Progress(dir: Dir, entries: seq<Entry>)

  function StoreGroup(at: Place, s: Progress, g: Group): Progress {
    Progress(
      s.dir[FileOf(at, g.key) := PkgFile(g.pkgs)],
      if HasKey(s.entries, g.key) then s.entries else s.entries + [Entry(g.key, FileName(g.key))])
  }

  /** The index entries after storing the groups. */
  function Indexed(entries: seq<Entry>, groups: seq<Group>): seq<Entry> {
    if groups == [] then entries
    else
      var before, k := Indexed(entries, groups[..|groups| - 1]), groups[|groups| - 1].key;
      if HasKey(before, k) then before else before + [Entry(k, FileName(k))]
  }

  function StoreGroups(at: Place, s: Progress, groups: seq<Group>): Progress {
    if groups == [] then s
    else StoreGroup(at, StoreGroups(at, s, groups[..|groups| - 1]), groups[|groups| - 1])
  }

  function ReadIndex(at: Place, dir: Dir): Result<seq<Entry>> {
    var index := at(INDEX_FILE);
    if index !in dir then Ok([])
    else if dir[index].IndexFile? then Ok(dir[index].entries)
    else YamlError
  }

  function Wrote(at: Place, dir: Dir, pkgs: seq<Pkg>): Result<Dir> {
    var index := ReadIndex(at, dir);
    if index.YamlError? then YamlError
    else
      var s := StoreGroups(at, Progress(dir, index.value), Grouped(pkgs));
      Ok(s.dir[at(INDEX_FILE) := IndexFile(s.entries)])
  }

  /** One file write of a call that fails: the package files are written in the order of the groups, then
      the index. It leaves the old file, or something else in its place. */
  datatype Fault = Fault(index: nat, left: Option<File>)

  function FaultedFile(at: Place, groups: seq<Group>, i: nat): string {
    if i < |groups| then FileOf(at, groups[i].key) else at(INDEX_FILE)
  }

  /** The directory a failing write leaves. */
  function Faulted(at: Place, dir: Dir, pkgs: seq<Pkg>, f: Fault): Dir
    requires ReadIndex(at, dir).Ok? && f.index <= |Grouped(pkgs)|
  {
    var gs := Grouped(pkgs);
    var stored := StoreGroups(at, Progress(dir, ReadIndex(at, dir).value), gs[..f.index]).dir;
    if f.left.None? then stored else stored[FaultedFile(at, gs, f.index) := f.left.value]
  }

  // ── read_all_from_cache ───────────────────────────────────────────────────

  function ReadEntries(at: Place, dir: Dir, entries: seq<Entry>): Result<seq<Pkg>> {
    if entries == [] then Ok([])
    else
      var all := ReadEntries(at, dir, entries[..|entries| - 1]);
      var file := at(entries[|entries| - 1].file);
      if all.YamlError? || file !in dir then all
      else if dir[file].PkgFile? then Ok(all.value + dir[file].pkgs)
      else YamlError
  }

  function ReadAll(at: Place, dir: Dir): Result<seq<Pkg>> {
    var index := ReadIndex(at, dir);
    if index.YamlError? then YamlError else ReadEntries(at, dir, index.value)
  }

  /** Reading goes entry by entry: an absent file adds nothing, a package file its packages, and an entry that
      means an index file spoils the whole. */
  lemma {:induction false} ReadsInOrder(at: Place, dir: Dir, a: seq<Entry>, b: seq<Entry>, e: Entry)
    ensures var x, y := ReadEntries(at, dir, a), ReadEntries(at, dir, b);
      ReadEntries(at, dir, a + b) == if x.Ok? && y.Ok? then Ok(x.value + y.value) else YamlError
    ensures at(e.file) !in dir ==> ReadEntries(at, dir, [e]) == Ok([])
    ensures at(e.file) in dir && dir[at(e.file)].PkgFile? ==> ReadEntries(at, dir, [e]) == Ok(dir[at(e.file)].pkgs)
    ensures at(e.file) in dir && dir[at(e.file)].IndexFile? ==> ReadEntries(at, dir, [e]) == YamlError
  {
    assert [e][..0] == [];
    assert ReadEntries(at, dir, [e][..0]) == Ok([]);
    if at(e.file) in dir && dir[at(e.file)].PkgFile? {
      assert [] + dir[at(e.file)].pkgs == dir[at(e.file)].pkgs;
    }
    var x := ReadEntries(at, dir, a);
    if b == [] {
      assert a + b == a;
      assert x.Ok? ==> x.value + [] == x.value;
    } else {
      var front, file := b[..|b| - 1], at(b[|b| - 1].file);
      ReadsInOrder(at, dir, a, front, e);
      assert (a + b)[..|a + b| - 1] == a + front;
      var y := ReadEntries(at, dir, front);
      if x.Ok? && y.Ok? && file in dir && dir[file].PkgFile? {
        assert (x.value + y.value) + dir[file].pkgs == x.value + (y.value + dir[file].pkgs);
      }
    }
  }

  class FileJukeBox {
    const at: Place
    var dir: Dir

    constructor (at: Place)
      ensures this.at == at && dir == map[]
    {
      this.at, this.dir := at, map[];
    }

    method ReadAllFromCache() returns (r: Result<seq<Pkg>>)
      ensures r == ReadAll(at, dir)
    {
      var index := ReadIndex(at, dir);
      if index.YamlError? {
        return YamlError;
      }
      var all: seq<Pkg> := [];
      for i := 0 to |index.value|
        invariant ReadEntries(at, dir, index.value[..i]) == Ok(all)
      {
        assert index.value[..i + 1][..i] == index.value[..i];
        var file := at(index.value[i].file);
        if file in dir {
          if !dir[file].PkgFile? {
            StaysBroken(at, dir, index.value, i + 1);
            return YamlError;
          }
          all := all + dir[file].pkgs;
        }
      }
      assert index.value[..|index.value|] == index.value;
      r := Ok(all);
    }

    method WriteToCache(pkgs: seq<Pkg>, fault: Option<Fault>) returns (ok: bool)
      modifies this`dir
      ensures ReadIndex(at, old(dir)).YamlError? ==> !ok && dir == old(dir)
      ensures ok ==> Ok(dir) == Wrote(at, old(dir), pkgs)
      ensures ReadIndex(at, old(dir)).Ok? ==>
        && (ok <==> fault.None? || fault.value.index > |Grouped(pkgs)|)
        && (!ok ==> dir == Faulted(at, old(dir), pkgs, fault.value))
    {
      hide Pushed, ReadIndex, HasKey, FileOf;
      var grouped: seq<Group> := [];
      for i := 0 to |pkgs|
        invariant grouped == Grouped(pkgs[..i])
      {
        assert pkgs[..i + 1][..i] == pkgs[..i];
        grouped := Pushed(grouped, pkgs[i]);
      }
      assert pkgs[..|pkgs|] == pkgs;
      var index := ReadIndex(at, dir);
      if index.YamlError? {
        return false;
      }
      var entries := index.value;
      for i := 0 to |grouped|
        invariant Progress(dir, entries) == StoreGroups(at, Progress(old(dir), index.value), grouped[..i])
        invariant fault.Some? ==> fault.value.index >= i
      {
        assert grouped[..i + 1][..i] == grouped[..i];
        var g := grouped[i];
        if fault.Some? && fault.value.index == i {
          if fault.value.left.Some? {
            dir := dir[FileOf(at, g.key) := fault.value.left.value];
          }
          return false;
        }
        dir := dir[FileOf(at, g.key) := PkgFile(g.pkgs)];
        if !HasKey(entries, g.key) {
          entries := entries + [Entry(g.key, FileName(g.key))];
        }
      }
      assert grouped[..|grouped|] == grouped;
      if fault.Some? && fault.value.index == |grouped| {
        if fault.value.left.Some? {
          dir := dir[at(INDEX_FILE) := fault.value.left.value];
        }
        return false;
      }
      dir := dir[at(INDEX_FILE) := IndexFile(entries)];
      return true;
    }
  }

  lemma {:induction false} StaysBroken(at: Place, dir: Dir, entries: seq<Entry>, n: nat)
    requires n <= |entries| && ReadEntries(at, dir, entries[..n]).YamlError?
    ensures ReadEntries(at, dir, entries).YamlError?
    decreases |entries| - n
  {
    if n == |entries| {
      assert entries[..n] == entries;
    } else {
      assert entries[..n + 1][..n] == entries[..n];
      StaysBroken(at, dir, entries, n + 1);
    }
  }

  // ── Histories of writes ───────────────────────────────────────────────────

  /** Keys in the order of the first write that names them (within one write: the map's order). */
  function AddKeys(keys: seq<Key>, groups: seq<Group>): seq<Key> {
    if groups == [] then keys
    else
      var before := AddKeys(keys, groups[..|groups| - 1]);
      var k := groups[|groups| - 1].key;
      if k in before then before else before + [k]
  }

  function KeysOf(history: seq<seq<Pkg>>): seq<Key> {
    if history == [] then []
    else AddKeys(KeysOf(history[..|history| - 1]), Grouped(history[|history| - 1]))
  }

  /** The packages of the last write that names `k`. */
  function Last(history: seq<seq<Pkg>>, k: Key): seq<Pkg> {
    if history == [] then []
    else
      var newest := OfKey(history[|history| - 1], k);
      if newest != [] then newest else Last(history[..|history| - 1], k)
  }

  function AllWrites(at: Place, history: seq<seq<Pkg>>): Result<Dir> {
    if history == [] then Ok(map[])
    else
      var before := AllWrites(at, history[..|history| - 1]);
      if before.YamlError? then YamlError else Wrote(at, before.value, history[|history| - 1])
  }

  function OwnerIn(at: Place, groups: seq<Group>, file: string): Option<Key> {
    if groups == [] then None
    else if FileOf(at, groups[|groups| - 1].key) == file then Some(groups[|groups| - 1].key)
    else OwnerIn(at, groups[..|groups| - 1], file)
  }

  /** The key whose packages were written to `file` last. */
  function Owner(at: Place, history: seq<seq<Pkg>>, file: string): Option<Key> {
    if history == [] then None
    else
      var newest := OwnerIn(at, Grouped(history[|history| - 1]), file);
      if newest.Some? then newest else Owner(at, history[..|history| - 1], file)
  }

  function EntriesOf(keys: seq<Key>): (es: seq<Entry>)
    ensures |es| == |keys|
    ensures forall i :: 0 <= i < |keys| ==> es[i] == Entry(keys[i], FileName(keys[i]))
  {
    if keys == [] then []
    else
      EntriesOf(keys[..|keys| - 1]) + [Entry(keys[|keys| - 1], FileName(keys[|keys| - 1]))]
  }

  predicate NoDuplicates(keys: seq<Key>) {
    forall i, j :: 0 <= i < j < |keys| ==> keys[i] != keys[j]
  }

  /** The directory after a history, clashing file names or not. */
  ghost predicate Describes(at: Place, dir: Dir, history: seq<seq<Pkg>>) {
    && (history != [] ==> at(INDEX_FILE) in dir && dir[at(INDEX_FILE)] == IndexFile(EntriesOf(KeysOf(history))))
    && (history == [] ==> at(INDEX_FILE) !in dir)
    && (forall f | f != at(INDEX_FILE) :: f in dir <==> Owner(at, history, f).Some?)
    && (forall f | f in dir && f != at(INDEX_FILE) :: dir[f] == PkgFile(Last(history, Owner(at, history, f).value)))
  }

  lemma {:induction false} NotTheIndex(k: Key)
    ensures FileName(k) != INDEX_FILE
  {
    assert FileName(k)[|k.category|] == '_';
    assert '_' !in INDEX_FILE;
  }

  lemma {:induction false} OwnerInIsMember(at: Place, groups: seq<Group>, file: string)
    ensures forall i :: 0 <= i < |groups| ==> FileOf(at, groups[i].key) == file ==> OwnerIn(at, groups, file).Some?
    ensures OwnerIn(at, groups, file).Some? ==>
      FileOf(at, OwnerIn(at, groups, file).value) == file && HasGroup(groups, OwnerIn(at, groups, file).value)
  {
    if groups == [] {
    } else {
      var front, last := groups[..|groups| - 1], groups[|groups| - 1];
      OwnerInIsMember(at, front, file);
      assert forall i :: 0 <= i < |front| ==> groups[i] == front[i];
      if OwnerIn(at, groups, file).Some? && FileOf(at, last.key) != file {
        var k := OwnerIn(at, front, file).value;
        var i :| 0 <= i < |front| && front[i].key == k;
        assert groups[i].key == k;
      }
    }
  }

  lemma {:induction false} StoreGroupsEntries(at: Place, s: Progress, groups: seq<Group>, keys: seq<Key>)
    requires s.entries == EntriesOf(keys)
    ensures StoreGroups(at, s, groups).entries == EntriesOf(AddKeys(keys, groups))
  {
    if groups == [] {
    } else {
      var front, k := groups[..|groups| - 1], groups[|groups| - 1].key;
      StoreGroupsEntries(at, s, front, keys);
      var mid, known := StoreGroups(at, s, front), AddKeys(keys, front);
      if k in known {
        var i :| 0 <= i < |known| && known[i] == k;
        assert mid.entries[i].key == k;
      } else {
        assert (known + [k])[..|known|] == known;
      }
    }
  }

  ghost predicate FilesStored(at: Place, before: Dir, after: Dir, groups: seq<Group>, pkgs: seq<Pkg>) {
    forall f ::
      && (f in after <==> f in before || OwnerIn(at, groups, f).Some?)
      && (f in after ==>
            after[f] == if OwnerIn(at, groups, f).Some? then PkgFile(OfKey(pkgs, OwnerIn(at, groups, f).value)) else before[f])
  }

  lemma {:induction false} StoreGroupsFiles(at: Place, s: Progress, groups: seq<Group>, pkgs: seq<Pkg>)
    requires forall i :: 0 <= i < |groups| ==> groups[i].pkgs == OfKey(pkgs, groups[i].key)
    ensures FilesStored(at, s.dir, StoreGroups(at, s, groups).dir, groups, pkgs)
  {
    if groups == [] {
    } else {
      StoreGroupsFiles(at, s, groups[..|groups| - 1], pkgs);
    }
  }

  lemma {:induction false} HistoryDescribed(at: Place, history: seq<seq<Pkg>>)
    ensures AllWrites(at, history).Ok? && Describes(at, AllWrites(at, history).value, history)
  {
    if history == [] {
    } else {
      var before, pkgs := history[..|history| - 1], history[|history| - 1];
      HistoryDescribed(at, before);
      var dir, gs, keys := AllWrites(at, before).value, Grouped(pkgs), KeysOf(before);
      GroupedIsPartition(pkgs);
      var entries := if before == [] then [] else EntriesOf(keys);
      assert entries == EntriesOf(keys);
      StoreGroupsEntries(at, Progress(dir, entries), gs, keys);
      StoreGroupsFiles(at, Progress(dir, entries), gs, pkgs);
      var now := AllWrites(at, history).value;
      forall f | f in now && f != at(INDEX_FILE)
        ensures now[f] == PkgFile(Last(history, Owner(at, history, f).value))
      {
        OwnerInIsMember(at, gs, f);
        var o := Owner(at, history, f).value;
        GroupKeys(pkgs, o);
        if OwnerIn(at, gs, f).None? {
          OwnerNamesFile(at, before, f);
        }
      }
    }
  }

  lemma {:induction false} OwnerNamesFile(at: Place, history: seq<seq<Pkg>>, f: string)
    ensures Owner(at, history, f).Some? ==>
      FileOf(at, Owner(at, history, f).value) == f && Owner(at, history, f).value in KeysOf(history)
    ensures forall k | k in KeysOf(history) :: FileOf(at, k) == f ==> Owner(at, history, f).Some?
  {
    if history == [] {
    } else {
      var before, gs := history[..|history| - 1], Grouped(history[|history| - 1]);
      OwnerNamesFile(at, before, f);
      OwnerInIsMember(at, gs, f);
      forall k ensures k in AddKeys(KeysOf(before), gs) <==> k in KeysOf(before) || HasGroup(gs, k) {
        AddKeysMember(KeysOf(before), gs, k);
      }
    }
  }

  lemma {:induction false} AddKeysMember(keys: seq<Key>, groups: seq<Group>, k: Key)
    ensures k in AddKeys(keys, groups) <==> k in keys || HasGroup(groups, k)
    ensures NoDuplicates(keys) ==> NoDuplicates(AddKeys(keys, groups))
    ensures keys <= AddKeys(keys, groups)
  {
    if groups == [] {
    } else {
      var front, last := groups[..|groups| - 1], groups[|groups| - 1];
      AddKeysMember(keys, front, k);
      AddKeysMember(keys, front, last.key);
      assert forall i :: 0 <= i < |front| ==> groups[i] == front[i];
      if HasGroup(front, k) {
        var i :| 0 <= i < |front| && front[i].key == k;
        assert groups[i].key == k;
      }
    }
  }

  lemma {:induction false} KeysAreTheKeysWritten(history: seq<seq<Pkg>>, k: Key)
    ensures k in KeysOf(history) <==> Last(history, k) != []
    ensures NoDuplicates(KeysOf(history))
    ensures forall p | p in Last(history, k) :: p.key == k
  {
    if history == [] {
    } else {
      var before, pkgs := history[..|history| - 1], history[|history| - 1];
      KeysAreTheKeysWritten(before, k);
      AddKeysMember(KeysOf(before), Grouped(pkgs), k);
      GroupKeys(pkgs, k);
      OfKeyMember(pkgs, k);
    }
  }

  // ── Failing writes ────────────────────────────────────────────────────────

  lemma {:induction false} EntriesAreIndexed(at: Place, s: Progress, groups: seq<Group>)
    ensures StoreGroups(at, s, groups).entries == Indexed(s.entries, groups)
  {
    if groups == [] {
    } else {
      EntriesAreIndexed(at, s, groups[..|groups| - 1]);
    }
  }

  lemma {:induction false} IndexedKeys(entries: seq<Entry>, groups: seq<Group>, k: Key)
    ensures HasKey(Indexed(entries, groups), k) <==> HasKey(entries, k) || HasGroup(groups, k)
  {
    if groups == [] {
    } else {
      var front, last := groups[..|groups| - 1], groups[|groups| - 1].key;
      IndexedKeys(entries, front, k);
      assert HasGroup(groups, k) <==> HasGroup(front, k) || last == k by {
        GroupOneMore(front, groups[|groups| - 1], k);
        assert groups == front + [groups[|groups| - 1]];
      }
      var before := Indexed(entries, front);
      if !HasKey(before, last) {
        EntryOneMore(before, Entry(last, FileName(last)), k);
      }
    }
  }

  lemma {:induction false} GroupOneMore(front: seq<Group>, g: Group, k: Key)
    ensures HasGroup(front + [g], k) <==> HasGroup(front, k) || g.key == k
  {
    var all := front + [g];
    if HasGroup(front, k) {
      var i :| 0 <= i < |front| && front[i].key == k;
      assert all[i].key == k;
    }
    assert all[|front|] == g;
  }

  lemma {:induction false} EntryOneMore(front: seq<Entry>, e: Entry, k: Key)
    ensures HasKey(front + [e], k) <==> HasKey(front, k) || e.key == k
  {
    var all := front + [e];
    if HasKey(front, k) {
      var i :| 0 <= i < |front| && front[i].key == k;
      assert all[i].key == k;
    }
    assert all[|front|] == e;
  }

  lemma {:induction false} PrefixOwners(at: Place, groups: seq<Group>, n: nat, file: string)
    requires n <= |groups| && OwnerIn(at, groups[..n], file).Some?
    ensures OwnerIn(at, groups, file).Some?
    decreases |groups|
  {
    if n == |groups| {
      assert groups[..n] == groups;
    } else {
      assert groups[..|groups| - 1][..n] == groups[..n];
      PrefixOwners(at, groups[..|groups| - 1], n, file);
    }
  }

  /** A failing write touches only the files of its own packages, or the index. */
  lemma {:induction false} FaultTouchesOwnFiles(at: Place, dir: Dir, pkgs: seq<Pkg>, f: Fault, file: string)
    requires ReadIndex(at, dir).Ok? && f.index <= |Grouped(pkgs)|
    requires OwnerIn(at, Grouped(pkgs), file).None?
    requires file != at(INDEX_FILE) || f.index < |Grouped(pkgs)| || f.left.None?
    ensures var after := Faulted(at, dir, pkgs, f);
      (file in after <==> file in dir) && (file in after ==> after[file] == dir[file])
  {
    var gs := Grouped(pkgs);
    GroupedIsPartition(pkgs);
    StoreGroupsFiles(at, Progress(dir, ReadIndex(at, dir).value), gs[..f.index], pkgs);
    if OwnerIn(at, gs[..f.index], file).Some? {
      PrefixOwners(at, gs, f.index, file);
    }
    OwnerInIsMember(at, gs, file);
  }

  /** The files a retry leaves are those the write would have left, the index aside. */
  lemma {:induction false} RetryFiles(at: Place, dir: Dir, pkgs: seq<Pkg>, f: Fault, es: seq<Entry>, file: string)
    requires ReadIndex(at, dir).Ok? && f.index <= |Grouped(pkgs)| && file != at(INDEX_FILE)
    ensures var gs := Grouped(pkgs);
      var x := StoreGroups(at, Progress(dir, ReadIndex(at, dir).value), gs).dir;
      var y := StoreGroups(at, Progress(Faulted(at, dir, pkgs, f), es), gs).dir;
      (file in x <==> file in y) && (file in x ==> x[file] == y[file])
  {
    var gs := Grouped(pkgs);
    GroupedIsPartition(pkgs);
    StoreGroupsFiles(at, Progress(dir, ReadIndex(at, dir).value), gs, pkgs);
    StoreGroupsFiles(at, Progress(Faulted(at, dir, pkgs, f), es), gs, pkgs);
    if OwnerIn(at, gs, file).None? {
      FaultTouchesOwnFiles(at, dir, pkgs, f, file);
    }
  }

  /** Retrying over an index `es` gives what the write would have given iff the entries come out the same. */
  lemma {:induction false} RetryOver(at: Place, dir: Dir, pkgs: seq<Pkg>, f: Fault, es: seq<Entry>)
    requires ReadIndex(at, dir).Ok? && f.index <= |Grouped(pkgs)|
    requires ReadIndex(at, Faulted(at, dir, pkgs, f)) == Ok(es)
    ensures Wrote(at, Faulted(at, dir, pkgs, f), pkgs).Ok? && Wrote(at, dir, pkgs).Ok?
    ensures Wrote(at, Faulted(at, dir, pkgs, f), pkgs) == Wrote(at, dir, pkgs) <==>
      Indexed(es, Grouped(pkgs)) == Indexed(ReadIndex(at, dir).value, Grouped(pkgs))
  {
    hide Grouped, Faulted, StoreGroups, Indexed;
    var gs, after, index := Grouped(pkgs), Faulted(at, dir, pkgs, f), at(INDEX_FILE);
    var old_ := ReadIndex(at, dir).value;
    var x, y := StoreGroups(at, Progress(dir, old_), gs), StoreGroups(at, Progress(after, es), gs);
    EntriesAreIndexed(at, Progress(dir, old_), gs);
    EntriesAreIndexed(at, Progress(after, es), gs);
    var p, q := x.dir[index := IndexFile(x.entries)], y.dir[index := IndexFile(y.entries)];
    assert p[index] == IndexFile(x.entries) && q[index] == IndexFile(y.entries);
    if x.entries == y.entries {
      forall file ensures (file in p <==> file in q) && (file in p ==> p[file] == q[file]) {
        if file != index {
          RetryFiles(at, dir, pkgs, f, es, file);
        }
      }
      assert p.Keys == q.Keys;
      assert p == q;
    }
  }

  lemma {:induction false} IndexHasNoOwner(at: Place, groups: seq<Group>)
    requires forall i :: 0 <= i < |groups| ==> FileOf(at, groups[i].key) != at(INDEX_FILE)
    ensures OwnerIn(at, groups, at(INDEX_FILE)).None?
  {
    if groups == [] {
    } else {
      IndexHasNoOwner(at, groups[..|groups| - 1]);
    }
  }

  /** What a failed write leaves for an index. */
  lemma {:induction false} FaultedIndex(at: Place, dir: Dir, pkgs: seq<Pkg>, f: Fault)
    requires ReadIndex(at, dir).Ok? && f.index <= |Grouped(pkgs)|
    requires forall i :: 0 <= i < |Grouped(pkgs)| ==> FileOf(at, Grouped(pkgs)[i].key) != at(INDEX_FILE)
    ensures ReadIndex(at, Faulted(at, dir, pkgs, f)) ==
      if f.index < |Grouped(pkgs)| || f.left.None? then ReadIndex(at, dir)
      else if f.left.value.IndexFile? then Ok(f.left.value.entries)
      else YamlError
  {
    hide Grouped, StoreGroups;
    if f.index < |Grouped(pkgs)| || f.left.None? {
      IndexHasNoOwner(at, Grouped(pkgs));
      FaultTouchesOwnFiles(at, dir, pkgs, f, at(INDEX_FILE));
    }
  }

  /** Writing the same packages again after a failed write. If the failure spared the index, it gives what the
      write would have given. If it left an index that can still be read, such as one cut between two entries,
      it succeeds, and gives the same exactly if the entries come out the same; a key is then indexed exactly
      if the remaining index or the packages name it, and all others are lost without an error. If it left no
      index, every later read and write fails. */
  lemma {:induction false} RetryHealsIff(at: Place, dir: Dir, pkgs: seq<Pkg>, f: Fault)
    requires ReadIndex(at, dir).Ok? && f.index <= |Grouped(pkgs)|
    requires forall i :: 0 <= i < |Grouped(pkgs)| ==> FileOf(at, Grouped(pkgs)[i].key) != at(INDEX_FILE)
    ensures var gs, after := Grouped(pkgs), Faulted(at, dir, pkgs, f);
      if f.index < |gs| || f.left.None? then Wrote(at, after, pkgs) == Wrote(at, dir, pkgs)
      else if f.left.value.IndexFile? then
        var es := f.left.value.entries;
        && Wrote(at, after, pkgs).Ok?
        && (Wrote(at, after, pkgs) == Wrote(at, dir, pkgs) <==>
              Indexed(es, gs) == Indexed(ReadIndex(at, dir).value, gs))
        && ReadIndex(at, Wrote(at, after, pkgs).value).Ok?
        && forall k :: HasKey(ReadIndex(at, Wrote(at, after, pkgs).value).value, k) <==> HasKey(es, k) || HasGroup(gs, k)
      else ReadAll(at, after).YamlError? && forall more :: Wrote(at, after, more).YamlError?
  {
    hide Grouped, StoreGroups, Faulted, Indexed, HasKey, HasGroup;
    FaultedIndex(at, dir, pkgs, f);
    var gs, after := Grouped(pkgs), Faulted(at, dir, pkgs, f);
    if ReadIndex(at, after).Ok? {
      var es := ReadIndex(at, after).value;
      RetryOver(at, dir, pkgs, f, es);
      EntriesAreIndexed(at, Progress(after, es), gs);
      assert ReadIndex(at, Wrote(at, after, pkgs).value) == Ok(Indexed(es, gs));
      forall k ensures HasKey(Indexed(es, gs), k) <==> HasKey(es, k) || HasGroup(gs, k) {
        IndexedKeys(es, gs, k);
      }
    }
  }

  // ── What a read returns ───────────────────────────────────────────────────

  function Contents(history: seq<seq<Pkg>>, keys: seq<Key>): seq<Pkg> {
    if keys == [] then [] else Contents(history, keys[..|keys| - 1]) + Last(history, keys[|keys| - 1])
  }

  function OwnerOf(at: Place, history: seq<seq<Pkg>>, k: Key): Key {
    var o := Owner(at, history, FileOf(at, k));
    if o.Some? then o.value else k
  }

  function Owners(at: Place, history: seq<seq<Pkg>>, keys: seq<Key>): (r: seq<Key>)
    ensures |r| == |keys| && forall i :: 0 <= i < |keys| ==> r[i] == OwnerOf(at, history, keys[i])
  {
    if keys == [] then [] else Owners(at, history, keys[..|keys| - 1]) + [OwnerOf(at, history, keys[|keys| - 1])]
  }

  lemma {:induction false} ReadEntriesOf(at: Place, dir: Dir, history: seq<seq<Pkg>>, keys: seq<Key>)
    requires Describes(at, dir, history)
    requires forall k | k in keys :: k in KeysOf(history) && FileOf(at, k) != at(INDEX_FILE)
    ensures ReadEntries(at, dir, EntriesOf(keys)) == Ok(Contents(history, Owners(at, history, keys)))
  {
    hide KeysOf, Last, Owner;
    if keys == [] {
    } else {
      var front, k := keys[..|keys| - 1], keys[|keys| - 1];
      assert keys == front + [k];
      ReadEntriesOf(at, dir, history, front);
      OwnerNamesFile(at, history, FileOf(at, k));
      assert EntriesOf(keys)[..|keys| - 1] == EntriesOf(front);
      assert Owners(at, history, keys)[..|keys| - 1] == Owners(at, history, front);
      assert k in KeysOf(history);
    }
  }

  lemma {:induction false} ReadsOwners(at: Place, history: seq<seq<Pkg>>)
    requires NoneOnIndex(at, history)
    ensures AllWrites(at, history).Ok?
    ensures ReadAll(at, AllWrites(at, history).value) == Ok(Contents(history, Owners(at, history, KeysOf(history))))
  {
    HistoryDescribed(at, history);
    ReadEntriesOf(at, AllWrites(at, history).value, history, KeysOf(history));
  }

  /** No key that was written has the index for its file. */
  predicate NoneOnIndex(at: Place, history: seq<seq<Pkg>>) {
    forall i :: 0 <= i < |KeysOf(history)| ==> FileOf(at, KeysOf(history)[i]) != at(INDEX_FILE)
  }

  /** Distinct keys that were written have distinct files, and none of them is the index. */
  predicate NoClash(at: Place, history: seq<seq<Pkg>>) {
    && NoneOnIndex(at, history)
    && forall i, j :: 0 <= i < j < |KeysOf(history)| ==>
         FileOf(at, KeysOf(history)[i]) != FileOf(at, KeysOf(history)[j])
  }

  /** From an empty directory, after any sequence of writes without clashing files: a read gives,
      key by key in first-write order, exactly the packages of the last write that names the key. */
  lemma {:induction false} ReadIsLastWrites(at: Place, history: seq<seq<Pkg>>)
    requires NoClash(at, history)
    ensures AllWrites(at, history).Ok?
    ensures ReadAll(at, AllWrites(at, history).value) == Ok(Contents(history, KeysOf(history)))
    ensures NoDuplicates(KeysOf(history))
  {
    hide Owner, KeysOf, AllWrites, ReadAll, Contents, FileOf, NoDuplicates;
    ReadsOwners(at, history);
    var keys := KeysOf(history);
    forall i | 0 <= i < |keys| ensures OwnerOf(at, history, keys[i]) == keys[i] {
      OwnerNamesFile(at, history, FileOf(at, keys[i]));
      assert keys[i] in keys;
      var o := OwnerOf(at, history, keys[i]);
      var j :| 0 <= j < |keys| && keys[j] == o;
    }
    assert Owners(at, history, keys) == keys;
    KeysAreTheKeysWritten(history, Key("", ""));
  }

  lemma {:induction false} OfKeyAppend(a: seq<Pkg>, b: seq<Pkg>, k: Key)
    ensures OfKey(a + b, k) == OfKey(a, k) + OfKey(b, k)
  {
    if b == [] {
      assert a + b == a;
    } else {
      OfKeyAppend(a, b[..|b| - 1], k);
      assert (a + b)[..|a + b| - 1] == a + b[..|b| - 1];
    }
  }

  lemma {:induction false} OfKeyAll(pkgs: seq<Pkg>, k: Key, k': Key)
    requires forall p | p in pkgs :: p.key == k'
    ensures OfKey(pkgs, k) == if k == k' then pkgs else []
  {
    if pkgs == [] {
    } else {
      OfKeyAll(pkgs[..|pkgs| - 1], k, k');
      assert pkgs[|pkgs| - 1] in pkgs;
    }
  }

  lemma {:induction false} OfKeyContents(history: seq<seq<Pkg>>, keys: seq<Key>, k: Key)
    ensures k !in keys ==> OfKey(Contents(history, keys), k) == []
    ensures k in keys && NoDuplicates(keys) ==> OfKey(Contents(history, keys), k) == Last(history, k)
  {
    hide OfKey, Last, KeysOf;
    if keys == [] {
      OfKeyAll([], k, k);
    } else {
      var front, last := keys[..|keys| - 1], keys[|keys| - 1];
      OfKeyContents(history, front, k);
      KeysAreTheKeysWritten(history, last);
      OfKeyAppend(Contents(history, front), Last(history, last), k);
      OfKeyAll(Last(history, last), k, last);
      assert keys == front + [last];
    }
  }

  /** What the file store promises: per key, a read gives the last write that names the key. */
  ghost predicate Faithful(at: Place, history: seq<seq<Pkg>>) {
    AllWrites(at, history).Ok? && ReadAll(at, AllWrites(at, history).value).Ok?
    && forall k :: OfKey(ReadAll(at, AllWrites(at, history).value).value, k) == Last(history, k)
  }

  lemma {:induction false} NoClashIsFaithful(at: Place, history: seq<seq<Pkg>>)
    requires NoClash(at, history)
    ensures Faithful(at, history)
  {
    ReadIsLastWrites(at, history);
    var keys := KeysOf(history);
    forall k ensures OfKey(Contents(history, keys), k) == Last(history, k) {
      OfKeyContents(history, keys, k);
      KeysAreTheKeysWritten(history, k);
    }
  }

  lemma {:induction false} NoFileBelongsTo(at: Place, history: seq<seq<Pkg>>, lost: Key, keys: seq<Key>)
    requires lost in KeysOf(history) && OwnerOf(at, history, lost) != lost
    requires forall k | k in keys :: k in KeysOf(history)
    ensures lost !in Owners(at, history, keys)
  {
    forall m | 0 <= m < |keys| ensures Owners(at, history, keys)[m] != lost {
      OwnerNamesFile(at, history, FileOf(at, keys[m]));
      assert keys[m] in keys;
      assert FileOf(at, OwnerOf(at, history, keys[m])) == FileOf(at, keys[m]);
    }
  }

  lemma {:induction false} ClashLosesAKey(at: Place, history: seq<seq<Pkg>>, a: Key, b: Key)
    requires a in KeysOf(history) && b in KeysOf(history) && a != b && FileOf(at, a) == FileOf(at, b)
    requires NoneOnIndex(at, history)
    ensures !Faithful(at, history)
  {
    var lost := if OwnerOf(at, history, a) == a then b else a;
    OwnerNamesFile(at, history, FileOf(at, a));
    NoFileBelongsTo(at, history, lost, KeysOf(history));
    ReadsOwners(at, history);
    KeysAreTheKeysWritten(history, lost);
    OfKeyContents(history, Owners(at, history, KeysOf(history)), lost);
  }

  /** A key whose file is the index makes every later read fail. */
  lemma {:induction false} IndexOverwritesAKey(at: Place, history: seq<seq<Pkg>>, i: nat)
    requires i < |KeysOf(history)| && FileOf(at, KeysOf(history)[i]) == at(INDEX_FILE)
    ensures AllWrites(at, history).Ok? && ReadAll(at, AllWrites(at, history).value).YamlError?
  {
    HistoryDescribed(at, history);
    var dir, entries := AllWrites(at, history).value, EntriesOf(KeysOf(history));
    assert entries[..i + 1][..i] == entries[..i];
    assert entries[..i + 1][i] == entries[i];
    assert ReadEntries(at, dir, entries[..i + 1]).YamlError?;
    StaysBroken(at, dir, entries, i + 1);
  }

  /** Exactly when it keeps the promise, wherever names end up: when no two keys written share a file, and
      none has the index for its file. */
  lemma {:induction false} FaithfulIffNoClash(at: Place, history: seq<seq<Pkg>>)
    ensures Faithful(at, history) <==> NoClash(at, history)
  {
    if NoClash(at, history) {
      NoClashIsFaithful(at, history);
    } else {
      var keys := KeysOf(history);
      if NoneOnIndex(at, history) {
        var i, j :| 0 <= i < j < |keys| && FileOf(at, keys[i]) == FileOf(at, keys[j]);
        KeysAreTheKeysWritten(history, keys[i]);
        ClashLosesAKey(at, history, keys[i], keys[j]);
      } else {
        var i :| 0 <= i < |keys| && FileOf(at, keys[i]) == at(INDEX_FILE);
        IndexOverwritesAKey(at, history, i);
      }
    }
  }

  lemma {:induction false} FirstUnderscore(k: Key, file: string)
    requires '_' !in k.category && file == FileName(k)
    ensures |k.category| < |file| && file[|k.category|] == '_'
    ensures forall i :: 0 <= i < |k.category| ==> file[i] != '_'
    ensures k == Key(file[..|k.category|], file[|k.category| + 1..|file| - 5])
  {
    assert file == k.category + "_" + k.name + ".yaml";
  }

  /** Categories without an underscore never clash. */
  lemma {:induction false} PlainCategoriesNeverClash(a: Key, b: Key)
    requires '_' !in a.category && '_' !in b.category && FileName(a) == FileName(b)
    ensures a == b
  {
    FirstUnderscore(a, FileName(a));
    FirstUnderscore(b, FileName(a));
  }

  /** Names without a slash mean files of the directory itself, one each. */
  ghost predicate KeepsPlainNames(at: Place) {
    forall a, b :: '/' !in a && '/' !in b && at(a) == at(b) ==> a == b
  }

  predicate PlainKey(k: Key) {
    '_' !in k.category && '/' !in k.category && '/' !in k.name
  }

  /** On a file system that tells plain names apart, keys without slashes and categories without
      underscores are enough. */
  lemma {:induction false} PlainHistoriesAreFaithful(at: Place, history: seq<seq<Pkg>>)
    requires KeepsPlainNames(at)
    requires forall i :: 0 <= i < |history| ==> forall p | p in history[i] :: PlainKey(p.key)
    ensures Faithful(at, history)
  {
    var keys := KeysOf(history);
    forall k | k in keys ensures PlainKey(k) {
      WrittenSomewhere(history, k);
    }
    forall i | 0 <= i < |keys| ensures FileOf(at, keys[i]) != at(INDEX_FILE) {
      assert keys[i] in keys;
      NotTheIndex(keys[i]);
      PlainNameHasNoSlash(keys[i]);
    }
    forall i, j | 0 <= i < j < |keys| ensures FileOf(at, keys[i]) != FileOf(at, keys[j]) {
      KeysAreTheKeysWritten(history, keys[i]);
      assert keys[i] in keys && keys[j] in keys;
      PlainNameHasNoSlash(keys[i]);
      PlainNameHasNoSlash(keys[j]);
      if FileName(keys[i]) == FileName(keys[j]) {
        PlainCategoriesNeverClash(keys[i], keys[j]);
      }
    }
    FaithfulIffNoClash(at, history);
  }

  lemma {:induction false} PlainNameHasNoSlash(k: Key)
    requires PlainKey(k)
    ensures '/' !in FileName(k) && '/' !in INDEX_FILE
  {
  }

  lemma {:induction false} WrittenSomewhere(history: seq<seq<Pkg>>, k: Key)
    requires k in KeysOf(history)
    ensures exists i :: 0 <= i < |history| && exists p: Pkg :: p in history[i] && p.key == k
  {
    var before, pkgs := history[..|history| - 1], history[|history| - 1];
    AddKeysMember(KeysOf(before), Grouped(pkgs), k);
    GroupKeys(pkgs, k);
    OfKeyMember(pkgs, k);
    if OfKey(pkgs, k) == [] {
      WrittenSomewhere(before, k);
      var i :| 0 <= i < |before| && exists p: Pkg :: p in before[i] && p.key == k;
      assert history[i] == before[i];
    }
  }

  /** On every file system, an underscore that can sit on either side loses a key. */
  lemma {:induction false} UnderscoresLoseAKey(at: Place, a: string, b: string, c: string, x: int, y: int)
    ensures !Faithful(at, [[Pkg(Key(a + "_" + b, c), x)], [Pkg(Key(a, b + "_" + c), y)]])
  {
    var k, l := Key(a + "_" + b, c), Key(a, b + "_" + c);
    var h := [[Pkg(k, x)], [Pkg(l, y)]];
    assert |k.category| > |l.category|;
    assert FileName(k) == FileName(l) == a + "_" + b + "_" + c + ".yaml";
    assert h[..1] == [[Pkg(k, x)]] && h[..1][..0] == [];
    assert [Pkg(k, x)][..0] == [] && [Pkg(l, y)][..0] == [];
    assert OfKey([Pkg(k, x)], k) == [Pkg(k, x)] && OfKey([Pkg(l, y)], l) == [Pkg(l, y)];
    assert Last(h[..1], k) == [Pkg(k, x)] && Last(h, l) == [Pkg(l, y)];
    assert OfKey([Pkg(l, y)], k) == [];
    assert Last(h, k) == Last(h[..1], k);
    KeysAreTheKeysWritten(h, k);
    KeysAreTheKeysWritten(h, l);
    var keys := KeysOf(h);
    var i :| 0 <= i < |keys| && keys[i] == k;
    var j :| 0 <= j < |keys| && keys[j] == l;
    assert FileOf(at, keys[i]) == FileOf(at, keys[j]);
    assert !NoClash(at, h) by {
      assert i < j || j < i;
    }
    FaithfulIffNoClash(at, h);
  }

  // ── Permutation ───────────────────────────────────────────────────────────

  lemma {:induction false} CountOfKey(pkgs: seq<Pkg>, p: Pkg)
    ensures multiset(OfKey(pkgs, p.key))[p] == multiset(pkgs)[p]
  {
    if pkgs == [] {
    } else {
      CountOfKey(pkgs[..|pkgs| - 1], p);
      assert pkgs == pkgs[..|pkgs| - 1] + [pkgs[|pkgs| - 1]];
    }
  }

  /** One write and one read give back the packages, reordered. */
  lemma {:induction false} OneWriteIsPermutation(at: Place, pkgs: seq<Pkg>)
    requires NoClash(at, [pkgs])
    ensures AllWrites(at, [pkgs]).Ok? && ReadAll(at, AllWrites(at, [pkgs]).value).Ok?
    ensures multiset(ReadAll(at, AllWrites(at, [pkgs]).value).value) == multiset(pkgs)
  {
    var h := [pkgs];
    FaithfulIffNoClash(at, h);
    var out := ReadAll(at, AllWrites(at, h).value).value;
    forall p ensures multiset(out)[p] == multiset(pkgs)[p] {
      CountOfKey(out, p);
      CountOfKey(pkgs, p);
      assert h[..0] == [];
      assert Last(h, p.key) == OfKey(pkgs, p.key);
    }
  }
}
