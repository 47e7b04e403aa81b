/** The migration run over the stored files, group by group, each rename an update in place. */
module FileMigration {
  import opened FileNames

  /** How many files of these groups are more than the one that keeps its name. */
  function Excess(files: seq<File>, groups: seq<Key>): int {
    if groups == [] then 0
    else Excess(files, groups[..|groups| - 1]) + |Members(files, groups[|groups| - 1])| - 1
  }

  /** The groups healed, those whose lookup fails left out. */
  function Done(groups: seq<Key>, faults: set<Key>): set<Key> {
    set key | key in groups && key !in faults
  }

  function Failed(groups: seq<Key>, faults: set<Key>): (n: nat)
    ensures n == 0 <==> forall key :: key in groups ==> key !in faults
  {
    if groups == [] then 0
    else
      var init, last := groups[..|groups| - 1], groups[|groups| - 1];
      assert groups == init + [last];
      Failed(init, faults) + if last in faults then 1 else 0
  }

  ghost predicate Progress(dryRun: bool, was: seq<File>, files: seq<File>, done: set<Key>) {
    if dryRun then files == was else Healed(was, files, done)
  }

  class FileCollection {
    var files: seq<File>

    constructor (files: seq<File>)
      ensures this.files == files
    {
      this.files := files;
    }

    method UpdateOne(i: nat, filename: string)
      requires i < |files|
      modifies this
      ensures files == old(files)[i := old(files)[i].(filename := filename)]
    {
      files := files[i := files[i].(filename := filename)];
    }

    /** Rename the older files of one group, or in a dry run only count them. */
    method HealGroup(ext: ExtensionOf, key: Key, stale: seq<nat>, dryRun: bool)
        returns (renamed: nat, ghost ns: seq<nat>)
      requires forall k :: 0 <= k < |stale| ==> stale[k] < |files|
      requires forall k, l :: 0 <= k < l < |stale| ==> stale[k] != stale[l]
      modifies this
      ensures renamed == |stale|
      ensures LeastFree(ext, key.filename, ScopeNames(old(files), key), ns)
      ensures if dryRun then files == old(files) else IsRenamed(ext, key.filename, old(files), files, stale, ns)
    {
      var names;
      names, ns := ChooseNames(ext, key.filename, ScopeNames(files, key), |stale|);
      renamed := |stale|;
      if dryRun {
        return;
      }
      for k := 0 to |stale|
        invariant |files| == |old(files)|
        invariant forall p :: 0 <= p < |stale| ==>
                    files[stale[p]] ==
                        if p < k then old(files)[stale[p]].(filename := names[p]) else old(files)[stale[p]]
        invariant forall i: nat :: i < |files| && i !in stale ==> files[i] == old(files)[i]
      {
        UpdateOne(stale[k], names[k]);
      }
    }

    /** The whole migration. `faults` are the groups whose lookup fails; such a group is skipped. A
        dry run counts what a real one renames. */
    method Migrate(ext: ExtensionOf, dryRun: bool, faults: set<Key>)
        returns (renamed: nat, groups: seq<Key>, errors: nat)
      modifies this
      ensures forall key :: key in groups <==> IsDuplicated(old(files), key)
      ensures errors == Failed(groups, faults)
      ensures dryRun ==> files == old(files)
      ensures !dryRun ==> Healed(old(files), files, Done(groups, faults))
      ensures !dryRun ==> (Unique(files) <==> errors == 0 && NoSplitGroup(old(files)))
      ensures errors == 0 ==> renamed == Excess(old(files), groups)
      ensures !dryRun && errors == 0 ==> forall key :: !IsDuplicated(files, key)
      ensures (forall key :: !IsDuplicated(old(files), key)) ==> files == old(files) && renamed == 0 && groups == []
      ensures Unique(old(files)) ==> files == old(files) && renamed == 0 && groups == []
    {
      ghost var was := files;
      groups := DuplicateGroups(files);
      renamed, errors := MigrateGroups(ext, dryRun, faults, groups, files);
      if !dryRun {
        UniqueExactly(was, files, Done(groups, faults));
        if errors > 0 {
          var key :| key in groups && key in faults;
          assert IsDuplicated(was, key);
        } else {
          NothingLeftToHeal(was, files, Done(groups, faults));
        }
      }
    }

    /** Heal one group beside those in `done`. */
    method HealNext(ext: ExtensionOf, key: Key, was: seq<File>, ghost done: set<Key>, dryRun: bool) returns (count: nat)
      requires IsDuplicated(was, key) && key !in done
      requires Progress(dryRun, was, files, done)
      modifies this
      ensures count + 1 == |Members(was, key)|
      ensures Progress(dryRun, was, files, done + {key})
    {
      ghost var before := files;
      var stale := StaleOf(was, key);
      ghost var ns;
      count, ns := HealGroup(ext, key, stale, dryRun);
      if !dryRun {
        HealOne(ext, was, before, files, done, key, stale, ns);
      }
    }

    method MigrateGroups(ext: ExtensionOf, dryRun: bool, faults: set<Key>, groups: seq<Key>, was: seq<File>)
        returns (renamed: nat, errors: nat)
      requires files == was && forall g :: 0 <= g < |groups| ==> IsDuplicated(was, groups[g])
      requires forall g, h :: 0 <= g < h < |groups| ==> groups[g] != groups[h]
      modifies this
      ensures errors == Failed(groups, faults)
      ensures Progress(dryRun, was, files, Done(groups, faults))
      ensures errors == 0 ==> renamed == Excess(was, groups)
      ensures groups == [] ==> files == was && renamed == 0
    {
      renamed, errors := 0, 0;
      ghost var done: set<Key> := {};
      for g := 0 to |groups|
        invariant Tallied(was, groups[..g], faults, done, renamed, errors)
        invariant Progress(dryRun, was, files, done)
        invariant g == 0 ==> renamed == 0 && files == was
      {
        OneMoreSlice(groups, g);
        renamed, errors, done := HealOrSkip(ext, dryRun, faults, groups[..g], groups[g], was, done, renamed, errors);
      }
      AllTallied(was, groups, faults, done, renamed, errors);
    }

    method HealOrSkip(ext: ExtensionOf, dryRun: bool, faults: set<Key>, ghost before: seq<Key>, key: Key,
                      was: seq<File>, ghost done: set<Key>, renamed: nat, errors: nat)
        returns (renamed': nat, errors': nat, ghost done': set<Key>)
      requires key !in before && IsDuplicated(was, key)
      requires Tallied(was, before, faults, done, renamed, errors) && Progress(dryRun, was, files, done)
      modifies this
      ensures Tallied(was, before + [key], faults, done', renamed', errors') && Progress(dryRun, was, files, done')
    {
      OneMoreGroup(was, before, key, faults);
      renamed', errors', done' := renamed, errors, done;
      if key in faults {
        errors' := errors + 1;
      } else {
        var count := HealNext(ext, key, was, done, dryRun);
        renamed' := renamed + count;
        done' := done + {key};
      }
    }
  }

  /** The counters after these groups. */
  ghost predicate Tallied(was: seq<File>, groups: seq<Key>, faults: set<Key>, done: set<Key>, renamed: nat,
                          errors: nat) {
    && done == Done(groups, faults) && errors == Failed(groups, faults)
    && (errors == 0 ==> renamed == Excess(was, groups))
  }

  lemma AllTallied(was: seq<File>, groups: seq<Key>, faults: set<Key>, done: set<Key>, renamed: nat, errors: nat)
    requires Tallied(was, groups[..|groups|], faults, done, renamed, errors)
    ensures done == Done(groups, faults) && errors == Failed(groups, faults)
    ensures errors == 0 ==> renamed == Excess(was, groups)
  {
    assert groups[..|groups|] == groups;
  }

  lemma OneMoreSlice(groups: seq<Key>, g: nat)
    requires g < |groups| && forall h, i :: 0 <= h < i < |groups| ==> groups[h] != groups[i]
    ensures groups[..g + 1] == groups[..g] + [groups[g]] && groups[g] !in groups[..g]
  {
  }

  lemma OneMoreGroup(was: seq<File>, groups: seq<Key>, key: Key, faults: set<Key>)
    ensures Done(groups + [key], faults) == Done(groups, faults) + (if key in faults then {} else {key})
    ensures Failed(groups + [key], faults) == Failed(groups, faults) + (if key in faults then 1 else 0)
    ensures Excess(was, groups + [key]) == Excess(was, groups) + |Members(was, key)| - 1
  {
    assert (groups + [key])[..|groups|] == groups;
  }

  /** As many free names as asked for, each the first one free when it is its turn. */
  method ChooseNames(ext: ExtensionOf, filename: string, scope: set<string>, count: nat)
      returns (names: seq<string>, ghost ns: seq<nat>)
    ensures |names| == |ns| == count && LeastFree(ext, filename, scope, ns)
    ensures forall p :: 0 <= p < count ==> names[p] == Suffixed(ext, filename, ns[p])
  {
    var taken := scope;
    names, ns := [], [];
    for k := 0 to count
      invariant |names| == |ns| == k && taken == scope + Named(ext, filename, ns)
      invariant LeastFree(ext, filename, scope, ns)
      invariant forall p :: 0 <= p < k ==> names[p] == Suffixed(ext, filename, ns[p])
    {
      var name, n := NextAvailableName(ext, filename, taken);
      NextLeast(ext, filename, scope, ns, n);
      NamedOne(ext, filename, ns, n);
      taken := taken + {name};
      names := names + [name];
      ns := ns + [n];
    }
  }

  /** The groups of two files or more, each once. */
  method DuplicateGroups(files: seq<File>) returns (groups: seq<Key>)
    ensures forall key :: key in groups <==> IsDuplicated(files, key)
    ensures forall g, h :: 0 <= g < h < |groups| ==> groups[g] != groups[h]
    ensures Unique(files) ==> groups == []
  {
    groups := [];
    for j := 0 to |files|
      invariant forall key :: key in groups <==> IsDuplicated(files[..j], key)
      invariant forall g, h :: 0 <= g < h < |groups| ==> groups[g] != groups[h]
    {
      var key := KeyOf(files[j]);
      var found := false;
      for i := 0 to j
        invariant found <==> exists k :: 0 <= k < i && KeyOf(files[k]) == key
      {
        if KeyOf(files[i]) == key {
          found := true;
        }
      }
      DuplicatedOneMore(files[..j], files[j]);
      assert files[..j + 1] == files[..j] + [files[j]];
      if found && key !in groups {
        groups := groups + [key];
      }
    }
    assert files[..|files|] == files;
    if groups != [] {
      assert groups[0] in groups;
    }
  }

  lemma DuplicatedOneMore(files: seq<File>, f: File)
    ensures forall key :: IsDuplicated(files + [f], key) <==>
              IsDuplicated(files, key) || (KeyOf(f) == key && exists k :: 0 <= k < |files| && KeyOf(files[k]) == key)
  {
    var all := files + [f];
    forall key ensures IsDuplicated(all, key) <==>
                       IsDuplicated(files, key) ||
                       (KeyOf(f) == key && exists k :: 0 <= k < |files| && KeyOf(files[k]) == key)
    {
      if IsDuplicated(files, key) {
        var i, j :| 0 <= i < j < |files| && KeyOf(files[i]) == key && KeyOf(files[j]) == key;
        assert KeyOf(all[i]) == key && KeyOf(all[j]) == key;
      }
      if KeyOf(f) == key && exists k :: 0 <= k < |files| && KeyOf(files[k]) == key {
        var k :| 0 <= k < |files| && KeyOf(files[k]) == key;
        assert KeyOf(all[k]) == key && KeyOf(all[|files|]) == key;
      }
      if IsDuplicated(all, key) {
        var i, j :| 0 <= i < j < |all| && KeyOf(all[i]) == key && KeyOf(all[j]) == key;
        assert KeyOf(files[i]) == key;
        assert j < |files| ==> KeyOf(files[j]) == key;
      }
    }
  }

  /** A group's files newest first, without the first. */
  method StaleOf(files: seq<File>, key: Key) returns (stale: seq<nat>)
    requires IsDuplicated(files, key)
    ensures IsStale(files, key, stale) && |stale| + 1 == |Members(files, key)|
  {
    var left := Members(files, key);
    var order: seq<nat> := [];
    while left != {}
      invariant left <= Members(files, key) && |order| + |left| == |Members(files, key)|
      invariant forall i :: i in Members(files, key) <==> i in left || i in order
      invariant forall k, l :: 0 <= k < l < |order| ==>
                order[k] < |files| && order[l] < |files| && Newer(files, order[k], order[l])
      invariant forall k, i :: 0 <= k < |order| && i in left ==> order[k] < |files| && Newer(files, order[k], i)
      decreases left
    {
      var newest := NewestOf(files, left);
      left := left - {newest};
      order := order + [newest];
    }
    SomeMember(files, key);
    stale := order[1..];
    OrderTail(files, key, order);
  }

  lemma SomeMember(files: seq<File>, key: Key)
    requires IsDuplicated(files, key)
    ensures Members(files, key) != {}
  {
    var i: nat, j: nat :| i < j < |files| && KeyOf(files[i]) == key && KeyOf(files[j]) == key;
    assert i in Members(files, key);
  }

  lemma OrderTail(files: seq<File>, key: Key, order: seq<nat>)
    requires order != [] && forall i :: i in order <==> i in Members(files, key)
    requires forall k, l :: 0 <= k < l < |order| ==>
              order[k] < |files| && order[l] < |files| && Newer(files, order[k], order[l])
    ensures IsStale(files, key, order[1..])
  {
    var stale := order[1..];
    forall i: nat | i < |files| && KeyOf(files[i]) == key ensures i == order[0] || i in stale {
      assert i in Members(files, key);
    }
    forall k | 0 <= k < |stale| ensures stale[k] in order && Newer(files, order[0], stale[k]) {
      assert stale[k] == order[k + 1];
    }
    forall j: nat | j < |files| && KeyOf(files[j]) == key && j != order[0] ensures Newer(files, order[0], j) {
      assert j in stale;
    }
    assert order[0] in order;
  }

  method NewestOf(files: seq<File>, left: set<nat>) returns (newest: nat)
    requires left != {} && forall i :: i in left ==> i < |files|
    ensures newest in left && forall i :: i in left && i != newest ==> Newer(files, newest, i)
  {
    newest :| newest in left;
    var unseen := left - {newest};
    while unseen != {}
      invariant newest in left && unseen <= left && newest !in unseen
      invariant forall i :: i in left - unseen && i != newest ==> Newer(files, newest, i)
      decreases unseen
    {
      var i :| i in unseen;
      assert forall x :: x in left - (unseen - {i}) ==> x in left - unseen || x == i;
      unseen := unseen - {i};
      if Newer(files, i, newest) {
        newest := i;
      }
    }
  }
}
