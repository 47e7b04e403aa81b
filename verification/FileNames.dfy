/** Renaming duplicate output files so that names are unique within a conversation and tenant. */
module FileNames {
  import opened Options
  import opened Decimal

  /** A field of a document, which may be missing or null. */
  datatype Field = Missing | Null | Value(text: string)

  datatype File = File(id: string, filename: string, conversation: Field, tenant: Field, createdAt: int)

  /** What the aggregation groups by: a missing field is not a null one. */
  datatype Key = Key(filename: string, conversation: Field, tenant: Field)

  /** The extension a path library finds in a name, not modelled further. */
  type ExtensionOf = string -> string

  function KeyOf(f: File): Key {
    Key(f.filename, f.conversation, f.tenant)
  }

  /** What a query and the unique index see of a field: a missing one as null. */
  function Seen(f: Field): Option<string> {
    if f.Value? then Some(f.text) else None
  }

  predicate SameScope(a: File, b: File) {
    Seen(a.conversation) == Seen(b.conversation) && Seen(a.tenant) == Seen(b.tenant)
  }

  /** A missing field and a null one meet in the index and are apart in the aggregation. */
  lemma MissingMeetsNull(f: File)
    ensures f.conversation == Missing ==>
              Collides(f, f.(conversation := Null)) && KeyOf(f) != KeyOf(f.(conversation := Null))
    ensures f.tenant == Missing ==> Collides(f, f.(tenant := Null)) && KeyOf(f) != KeyOf(f.(tenant := Null))
    ensures f.conversation.Value? ==>
              !Collides(f, f.(conversation := Null)) && !Collides(f, f.(conversation := Missing))
  {
  }

  /** `report.png` with 2 becomes `report (2).png`. */
  function Suffixed(ext: ExtensionOf, filename: string, n: nat): string {
    var extension := ext(filename);
    var base := if extension == "" then filename
                else filename[..if |filename| >= |extension| then |filename| - |extension| else 0];
    base + " (" + Print(n) + ")" + extension
  }

  /** The numbered name keeps the stem in front and the extension behind. */
  lemma SuffixKeepsEnds(ext: ExtensionOf, stem: string, extension: string, n: nat)
    requires ext(stem + extension) == extension
    ensures Suffixed(ext, stem + extension, n) == stem + " (" + Print(n) + ")" + extension
  {
    assert (stem + extension)[..|stem|] == stem;
    assert extension == "" ==> stem + extension == stem;
  }

  lemma SuffixInjective(ext: ExtensionOf, filename: string, m: nat, n: nat)
    requires Suffixed(ext, filename, m) == Suffixed(ext, filename, n)
    ensures m == n
  {
    var extension := ext(filename);
    var base := if extension == "" then filename
                else filename[..if |filename| >= |extension| then |filename| - |extension| else 0];
    var a, b := Suffixed(ext, filename, m), Suffixed(ext, filename, n);
    var k := |base| + 2;
    assert |a| == k + |Print(m)| + 1 + |extension| && |b| == k + |Print(n)| + 1 + |extension|;
    assert a[k..k + |Print(m)|] == Print(m) && b[k..k + |Print(n)|] == Print(n);
    PrintInjective(m, n);
  }

  // ---- the least free names --------------------------------------------------------------

  /** `ns` are, in increasing order, the least numbers whose names are not taken. */
  ghost predicate LeastFree(ext: ExtensionOf, filename: string, taken: set<string>, ns: seq<nat>) {
    && (forall i :: 0 <= i < |ns| ==> ns[i] >= 1 && Suffixed(ext, filename, ns[i]) !in taken)
    && (forall i, j :: 0 <= i < j < |ns| ==> ns[i] < ns[j])
    && (forall i, m: nat :: 0 <= i < |ns| && 1 <= m < ns[i] ==> m in ns || Suffixed(ext, filename, m) in taken)
  }

  function Named(ext: ExtensionOf, filename: string, ns: seq<nat>): set<string> {
    set i | 0 <= i < |ns| :: Suffixed(ext, filename, ns[i])
  }

  /** Count up to the first free name and take it. The count ends: the names tried are distinct and
      only finitely many are taken. */
  method NextAvailableName(ext: ExtensionOf, filename: string, taken: set<string>) returns (name: string, n: nat)
    ensures n >= 1 && name == Suffixed(ext, filename, n) && name !in taken
    ensures forall m: nat :: 1 <= m < n ==> Suffixed(ext, filename, m) in taken
  {
    n := 1;
    name := Suffixed(ext, filename, n);
    ghost var untried := taken;
    while name in taken
      invariant n >= 1 && name == Suffixed(ext, filename, n) && untried <= taken
      invariant forall m: nat :: 1 <= m < n ==> Suffixed(ext, filename, m) in taken
      invariant forall m: nat :: m >= n && Suffixed(ext, filename, m) in taken ==> Suffixed(ext, filename, m) in untried
      decreases |untried|
    {
      untried := untried - {name};
      forall m: nat | m >= n + 1 && Suffixed(ext, filename, m) in taken ensures Suffixed(ext, filename, m) in untried {
        if Suffixed(ext, filename, m) == name {
          SuffixInjective(ext, filename, m, n);
        }
      }
      n := n + 1;
      name := Suffixed(ext, filename, n);
    }
  }

  lemma NamedOne(ext: ExtensionOf, filename: string, ns: seq<nat>, n: nat)
    ensures Named(ext, filename, ns + [n]) == Named(ext, filename, ns) + {Suffixed(ext, filename, n)}
  {
    var ns' := ns + [n];
    assert ns'[|ns|] == n;
    forall name
      ensures name in Named(ext, filename, ns') <==> name in Named(ext, filename, ns) + {Suffixed(ext, filename, n)}
    {
      if name in Named(ext, filename, ns) {
        var i :| 0 <= i < |ns| && Suffixed(ext, filename, ns[i]) == name;
        assert Suffixed(ext, filename, ns'[i]) == name;
      }
      if name in Named(ext, filename, ns') {
        var i :| 0 <= i < |ns'| && Suffixed(ext, filename, ns'[i]) == name;
        assert i < |ns| ==> Suffixed(ext, filename, ns[i]) == name;
      }
    }
  }

  /** A number whose name was handed out was given to some file. */
  lemma NamedNumber(ext: ExtensionOf, filename: string, ns: seq<nat>, m: nat)
    ensures Suffixed(ext, filename, m) in Named(ext, filename, ns) <==> m in ns
  {
    if Suffixed(ext, filename, m) in Named(ext, filename, ns) {
      var i :| 0 <= i < |ns| && Suffixed(ext, filename, ns[i]) == Suffixed(ext, filename, m);
      SuffixInjective(ext, filename, ns[i], m);
    }
  }

  /** The next name after those already handed out extends the least free ones. */
  lemma NextLeast(ext: ExtensionOf, filename: string, taken: set<string>, ns: seq<nat>, n: nat)
    requires LeastFree(ext, filename, taken, ns) && n >= 1
    requires Suffixed(ext, filename, n) !in taken + Named(ext, filename, ns)
    requires forall m: nat :: 1 <= m < n ==> Suffixed(ext, filename, m) in taken + Named(ext, filename, ns)
    ensures LeastFree(ext, filename, taken, ns + [n])
  {
    var ns' := ns + [n];
    NamedNumber(ext, filename, ns, n);
    assert forall i :: 0 <= i < |ns| ==> ns[i] < n;
    forall m: nat | 1 <= m < n ensures m in ns || Suffixed(ext, filename, m) in taken {
      NamedNumber(ext, filename, ns, m);
    }
    assert forall m :: m in ns ==> m in ns';
    forall i, m: nat | 0 <= i < |ns'| && 1 <= m < ns'[i] ensures m in ns' || Suffixed(ext, filename, m) in taken {
      assert i < |ns| ==> ns'[i] == ns[i];
    }
  }

  // ---- groups and runs -------------------------------------------------------------------

  function Members(files: seq<File>, key: Key): set<nat> {
    set i: nat | i < |files| && KeyOf(files[i]) == key
  }

  /** No two files of one conversation and tenant share a name. */
  ghost predicate Unique(files: seq<File>) {
    forall i, j :: 0 <= i < j < |files| ==> !Collides(files[i], files[j])
  }

  predicate Collides(a: File, b: File) {
    a.filename == b.filename && SameScope(a, b)
  }

  /** No two files collide for the index and yet fall into different groups. */
  ghost predicate NoSplitGroup(files: seq<File>) {
    forall i, j :: 0 <= i < j < |files| && Collides(files[i], files[j]) ==> KeyOf(files[i]) == KeyOf(files[j])
  }

  /** File `i` comes before file `j` when newest come first, ties in stored order. */
  predicate Newer(files: seq<File>, i: nat, j: nat)
    requires i < |files| && j < |files|
  {
    files[i].createdAt > files[j].createdAt || (files[i].createdAt == files[j].createdAt && i < j)
  }

  ghost predicate IsNewest(files: seq<File>, i: nat) {
    && i < |files|
    && forall j :: 0 <= j < |files| && j != i && KeyOf(files[j]) == KeyOf(files[i]) ==> Newer(files, i, j)
  }

  /** `stale` lists the group's older files, newest first: all but the newest one. */
  ghost predicate IsStale(files: seq<File>, key: Key, stale: seq<nat>) {
    && (forall k :: 0 <= k < |stale| ==>
        stale[k] < |files| && KeyOf(files[stale[k]]) == key && !IsNewest(files, stale[k]))
    && (forall i: nat :: i < |files| && KeyOf(files[i]) == key && !IsNewest(files, i) ==> i in stale)
    && (forall k, l :: 0 <= k < l < |stale| ==> Newer(files, stale[k], stale[l]))
  }

  /** The files of `stale` get the names numbered `ns`, the others keep theirs. */
  ghost predicate IsRenamed(ext: ExtensionOf, filename: string, files: seq<File>, files': seq<File>, stale: seq<nat>,
                            ns: seq<nat>) {
    && |files'| == |files| && |ns| == |stale|
    && (forall k :: 0 <= k < |stale| ==>
          stale[k] < |files| && files'[stale[k]] == files[stale[k]].(filename := Suffixed(ext, filename, ns[k])))
    && (forall i: nat :: i < |files| && i !in stale ==> files'[i] == files[i])
  }

  /** Where a run that healed the groups in `done` has got to: only names changed, only of older
      members of those groups, and each new name is alone in its scope. */
  ghost predicate Healed(was: seq<File>, files: seq<File>, done: set<Key>) {
    && |files| == |was|
    && (forall i :: 0 <= i < |files| ==> files[i] == was[i].(filename := files[i].filename))
    && (forall i :: 0 <= i < |files| ==>
          if KeyOf(was[i]) in done && !IsNewest(was, i) then
            files[i].filename != was[i].filename
            && forall j :: 0 <= j < |files| && j != i && SameScope(was[i], was[j]) ==>
                files[j].filename != files[i].filename
          else files[i] == was[i])
  }

  /** The duplicate groups. */
  ghost predicate IsDuplicated(files: seq<File>, key: Key) {
    exists i, j :: 0 <= i < j < |files| && KeyOf(files[i]) == key && KeyOf(files[j]) == key
  }

  lemma OneNewest(files: seq<File>, i: nat, j: nat)
    requires IsNewest(files, i) && IsNewest(files, j) && KeyOf(files[i]) == KeyOf(files[j])
    ensures i == j
  {
  }

  /** Each file's group has a newest file. */
  lemma {:induction false} NewestOfGroup(files: seq<File>, key: Key, n: nat) returns (newest: nat)
    requires n <= |files| && exists i :: 0 <= i < n && KeyOf(files[i]) == key
    ensures newest < n && KeyOf(files[newest]) == key
    ensures forall j :: 0 <= j < n && j != newest && KeyOf(files[j]) == key ==> Newer(files, newest, j)
  {
    if exists i :: 0 <= i < n - 1 && KeyOf(files[i]) == key {
      newest := NewestOfGroup(files, key, n - 1);
      if KeyOf(files[n - 1]) == key && Newer(files, n - 1, newest) {
        newest := n - 1;
      }
    } else {
      newest := n - 1;
    }
  }

  /** `done` groups healed: names are unique if and only if no duplicate group was left out and no
      collision ran across two groups, one with a field missing where the other has it null. */
  lemma UniqueExactly(was: seq<File>, files: seq<File>, done: set<Key>)
    requires Healed(was, files, done)
    ensures Unique(files) <==> (forall key :: IsDuplicated(was, key) ==> key in done) && NoSplitGroup(was)
  {
    if (forall key :: IsDuplicated(was, key) ==> key in done) && NoSplitGroup(was) {
      forall i, j | 0 <= i < j < |files| ensures !Collides(files[i], files[j]) {
        StillApart(was, files, done, i, j);
      }
    } else if key :| IsDuplicated(was, key) && key !in done {
      var i, j :| 0 <= i < j < |was| && KeyOf(was[i]) == key && KeyOf(was[j]) == key;
      assert files[i] == was[i] && files[j] == was[j];
      assert Collides(files[i], files[j]);
    } else {
      var i, j :| 0 <= i < j < |was| && Collides(was[i], was[j]) && KeyOf(was[i]) != KeyOf(was[j]);
      SplitStays(was, files, done, i, j);
    }
  }

  /** The file keeps its name and no file of its group is younger, none of the same age before it. */
  ghost predicate KeepsName(was: seq<File>, files: seq<File>, i: nat) {
    && i < |was| && |files| == |was| && files[i] == was[i]
    && forall j :: 0 <= j < |was| && KeyOf(was[j]) == KeyOf(was[i]) ==>
         was[j].createdAt <= was[i].createdAt && (was[j].createdAt == was[i].createdAt ==> i <= j)
  }

  /** Who is renamed: of each group healed everyone but one, the youngest, and of the youngest the first. */
  lemma OlderAreRenamed(was: seq<File>, files: seq<File>, done: set<Key>, i: nat)
    requires Healed(was, files, done) && i < |was| && KeyOf(was[i]) in done
    ensures files[i].filename == was[i].filename <==> KeepsName(was, files, i)
    ensures exists j: nat :: j < |was| && KeyOf(was[j]) == KeyOf(was[i]) && KeepsName(was, files, j)
  {
    if IsNewest(was, i) {
      assert KeepsName(was, files, i);
    }
    var newest := NewestOfGroup(was, KeyOf(was[i]), |was|);
    assert IsNewest(was, newest);
    assert KeepsName(was, files, newest);
  }

  /** The older files of a group take the numbers by age: the younger the smaller. */
  lemma NumberedByAge(ext: ExtensionOf, key: Key, files: seq<File>, files': seq<File>, stale: seq<nat>, ns: seq<nat>,
                      k: nat, l: nat)
    requires IsStale(files, key, stale) && IsRenamed(ext, key.filename, files, files', stale, ns)
    requires LeastFree(ext, key.filename, ScopeNames(files, key), ns) && k < l < |stale|
    ensures files[stale[k]].createdAt >= files[stale[l]].createdAt && ns[k] < ns[l]
    ensures files'[stale[k]].filename == Suffixed(ext, key.filename, ns[k])
    ensures files'[stale[l]].filename == Suffixed(ext, key.filename, ns[l])
  {
  }

  /** A collision across groups stays: each group's newest file keeps its name. */
  lemma SplitStays(was: seq<File>, files: seq<File>, done: set<Key>, i: nat, j: nat)
    requires Healed(was, files, done) && i < |was| && j < |was|
    requires Collides(was[i], was[j]) && KeyOf(was[i]) != KeyOf(was[j])
    ensures !Unique(files)
  {
    var a := NewestOfGroup(was, KeyOf(was[i]), |was|);
    var b := NewestOfGroup(was, KeyOf(was[j]), |was|);
    assert IsNewest(was, a) && IsNewest(was, b);
    assert files[a] == was[a] && files[b] == was[b];
    assert Collides(files[a], files[b]) && Collides(files[b], files[a]);
  }

  /** With every duplicate group healed no duplicate group is left, collisions across groups or not. */
  lemma NothingLeftToHeal(was: seq<File>, files: seq<File>, done: set<Key>)
    requires Healed(was, files, done) && forall key :: IsDuplicated(was, key) ==> key in done
    ensures forall key :: !IsDuplicated(files, key)
  {
    forall i: nat, j: nat | i < j < |files| ensures KeyOf(files[i]) != KeyOf(files[j]) {
      GroupsApart(was, files, done, i, j);
    }
  }

  lemma GroupsApart(was: seq<File>, files: seq<File>, done: set<Key>, i: nat, j: nat)
    requires Healed(was, files, done) && i < j < |files|
    requires IsDuplicated(was, KeyOf(was[i])) ==> KeyOf(was[i]) in done
    ensures KeyOf(files[i]) != KeyOf(files[j])
  {
    assert files[i] == was[i].(filename := files[i].filename) && files[j] == was[j].(filename := files[j].filename);
    if files[i] == was[i] && files[j] == was[j] && KeyOf(was[i]) == KeyOf(was[j]) {
      assert IsDuplicated(was, KeyOf(was[i]));
      OneNewest(was, i, j);
    }
  }

  lemma StillApart(was: seq<File>, files: seq<File>, done: set<Key>, i: nat, j: nat)
    requires Healed(was, files, done) && i < j < |files| && NoSplitGroup(was)
    requires IsDuplicated(was, KeyOf(was[i])) ==> KeyOf(was[i]) in done
    ensures !Collides(files[i], files[j])
  {
    assert files[i] == was[i].(filename := files[i].filename) && files[j] == was[j].(filename := files[j].filename);
    if files[i] == was[i] && files[j] == was[j] && Collides(was[i], was[j]) {
      assert IsDuplicated(was, KeyOf(was[i]));
      OneNewest(was, i, j);
    }
  }

  /** The names the group's scope holds. */
  function ScopeNames(files: seq<File>, key: Key): set<string> {
    set i | 0 <= i < |files| && Seen(files[i].conversation) == Seen(key.conversation) &&
        Seen(files[i].tenant) == Seen(key.tenant) :: files[i].filename
  }

  /** A member of a group not yet healed is as it was. */
  lemma Untouched(was: seq<File>, files: seq<File>, done: set<Key>, i: nat)
    requires Healed(was, files, done) && i < |was| && KeyOf(was[i]) !in done
    ensures files[i] == was[i]
  {
  }

  /** Healing one more group with the least free names keeps what healing the others achieved. */
  lemma HealOne(ext: ExtensionOf, was: seq<File>, files: seq<File>, files': seq<File>, done: set<Key>, key: Key,
                stale: seq<nat>, ns: seq<nat>)
    requires Healed(was, files, done) && key !in done && IsStale(was, key, stale)
    requires IsRenamed(ext, key.filename, files, files', stale, ns)
    requires LeastFree(ext, key.filename, ScopeNames(files, key), ns)
    ensures Healed(was, files', done + {key})
  {
    forall i: nat | i < |files|
      ensures files'[i] == was[i].(filename := files'[i].filename)
      ensures i in stale ==> files'[i].filename != was[i].filename
      ensures i !in stale ==> files'[i] == files[i]
    {
      if i in stale {
        var k :| 0 <= k < |stale| && stale[k] == i;
        Untouched(was, files, done, i);
        assert files[i].filename in ScopeNames(files, key);
      }
    }
    forall i: nat, j: nat | i < |files| && j < |files| && j != i && SameScope(was[i], was[j])
                            && (i in stale || files[i] != was[i])
      ensures files'[j].filename != files'[i].filename
    {
      FreshInScope(ext, was, files, files', done, key, stale, ns, i, j);
    }
    forall i: nat | i < |files|
      ensures KeyOf(was[i]) in done + {key} && !IsNewest(was, i) <==>
                i in stale || (KeyOf(was[i]) in done && !IsNewest(was, i))
    {
      if i in stale {
        var k :| 0 <= k < |stale| && stale[k] == i;
      }
    }
  }

  lemma FreshInScope(ext: ExtensionOf, was: seq<File>, files: seq<File>, files': seq<File>, done: set<Key>, key: Key,
                     stale: seq<nat>, ns: seq<nat>, i: nat, j: nat)
    requires Healed(was, files, done) && key !in done && IsStale(was, key, stale)
    requires IsRenamed(ext, key.filename, files, files', stale, ns)
    requires LeastFree(ext, key.filename, ScopeNames(files, key), ns)
    requires i < |files| && j < |files| && i != j && SameScope(was[i], was[j])
    requires i in stale || files[i] != was[i]
    ensures files'[j].filename != files'[i].filename
  {
    assert SameScope(files[i], was[i]) && SameScope(files[j], was[j]);
    if i in stale {
      var k :| 0 <= k < |stale| && stale[k] == i;
      if j in stale {
        var l :| 0 <= l < |stale| && stale[l] == j;
        if ns[k] != ns[l] && Suffixed(ext, key.filename, ns[k]) == Suffixed(ext, key.filename, ns[l]) {
          SuffixInjective(ext, key.filename, ns[k], ns[l]);
        }
      } else {
        assert files[j].filename in ScopeNames(files, key);
      }
    } else if j in stale {
      var l :| 0 <= l < |stale| && stale[l] == j;
      assert files[i].filename in ScopeNames(files, key);
    }
  }
}
