/** Loading the recovery policy from its three sources, and resolving it to files. */
module PolicyResolution {
  import opened Common
  import opened GlobModel
  import opened PathOrder
  import opened DataPolicy

  datatype Ownership = Ownership(name: string, patterns: seq<Pattern>, snapshot: bool)

  datatype Policy = Policy(classes: map<string, seq<Pattern>>, legacy: seq<Pattern>)

  datatype Pair = Pair(kind: string, pattern: Pattern)

  datatype ProtectedFile = ProtectedFile(path: Path, classes: seq<string>)

  const LEGACY := "legacy_additive"

  /** What the policy is loaded from: the built-in classes, and the additions of the
      local policy file and of the legacy backup list. */
  datatype Sources = Sources(mandatory: seq<Ownership>, local: map<string, seq<Pattern>>, legacy: seq<Pattern>)

  /** Every snapshot class is named once, and none is named like the legacy one. */
  ghost predicate ProperClasses(mandatory: seq<Ownership>) {
    && (forall i, j :: 0 <= i < j < |mandatory| ==> mandatory[i].name != mandatory[j].name)
    && (forall o :: o in mandatory ==> o.name != LEGACY)
  }

  predicate AddsTo(local: map<string, seq<Pattern>>, kind: string, pattern: Pattern) {
    kind in local && pattern in local[kind]
  }

  predicate ClassDeclares(s: Sources, o: Ownership, pattern: Pattern) {
    o in s.mandatory && o.snapshot && (pattern in o.patterns || AddsTo(s.local, o.name, pattern))
  }

  ghost predicate SomeClassDeclares(s: Sources, pattern: Pattern) {
    exists o :: ClassDeclares(s, o, pattern)
  }

  /** The sources put a pattern under a kind: built-in and local patterns under their
      class, a legacy pattern under its own kind when no class has it already. */
  ghost predicate Declares(s: Sources, kind: string, pattern: Pattern) {
    || (exists o :: ClassDeclares(s, o, pattern) && o.name == kind)
    || (kind == LEGACY && pattern in s.legacy && !SomeClassDeclares(s, pattern))
  }

  // -------------------------------------------------------------------- loading

  /** `dict.fromkeys`: each pattern once, where it first occurs. */
  function Unique(patterns: seq<Pattern>): (out: seq<Pattern>)
    ensures forall p :: p in out <==> p in patterns
    ensures Distinct(out)
  {
    if patterns == [] then []
    else
      var last := patterns[|patterns| - 1];
      var earlier := Unique(patterns[..|patterns| - 1]);
      assert forall p :: p in patterns <==> p in patterns[..|patterns| - 1] || p == last;
      if last in earlier then earlier else earlier + [last]
  }

  predicate KnownClass(mandatory: seq<Ownership>, kind: string) {
    exists i :: 0 <= i < |mandatory| && mandatory[i].name == kind && mandatory[i].snapshot
  }

  /** `_read_local_additions` raises on a kind that is no snapshot class. */
  ghost predicate LocalRefused(s: Sources) {
    exists kind :: kind in s.local && !KnownClass(s.mandatory, kind)
  }

  ghost predicate ClassesLoaded(s: Sources, classes: map<string, seq<Pattern>>, n: nat)
    requires n <= |s.mandatory|
  {
    && (forall kind :: kind in classes ==>
          exists i :: 0 <= i < n && s.mandatory[i].snapshot && s.mandatory[i].name == kind)
    && (forall i :: 0 <= i < n && s.mandatory[i].snapshot ==>
          s.mandatory[i].name in classes
          && forall p :: p in classes[s.mandatory[i].name] <==> ClassDeclares(s, s.mandatory[i], p))
  }

  lemma ClassLoaded(s: Sources, before: map<string, seq<Pattern>>, after: map<string, seq<Pattern>>, n: nat)
    requires ProperClasses(s.mandatory) && n < |s.mandatory| && ClassesLoaded(s, before, n)
    requires var o := s.mandatory[n];
             after == if o.snapshot
                      then before[o.name := Unique(o.patterns + (if o.name in s.local then s.local[o.name] else []))]
                      else before
    ensures ClassesLoaded(s, after, n + 1)
  {
    var o := s.mandatory[n];
    assert o in s.mandatory;
    forall kind | kind in after
      ensures exists i :: 0 <= i < n + 1 && s.mandatory[i].snapshot && s.mandatory[i].name == kind
    {
      if kind !in before {
        assert s.mandatory[n].name == kind;
      }
    }
    forall i | 0 <= i < n + 1 && s.mandatory[i].snapshot
      ensures s.mandatory[i].name in after
      ensures forall p :: p in after[s.mandatory[i].name] <==> ClassDeclares(s, s.mandatory[i], p)
    {
      if i < n {
        assert s.mandatory[i].name != o.name;
        assert after[s.mandatory[i].name] == before[s.mandatory[i].name];
      }
    }
  }

  method LoadClasses(s: Sources) returns (classes: map<string, seq<Pattern>>)
    requires ProperClasses(s.mandatory)
    ensures ClassesLoaded(s, classes, |s.mandatory|)
  {
    classes := map[];
    var n := 0;
    while n < |s.mandatory|
      invariant 0 <= n <= |s.mandatory|
      invariant ClassesLoaded(s, classes, n)
    {
      var o := s.mandatory[n];
      ghost var before := classes;
      if o.snapshot {
        classes := classes[o.name := Unique(o.patterns + (if o.name in s.local then s.local[o.name] else []))];
      }
      ClassLoaded(s, before, classes, n);
      n := n + 1;
    }
  }

  /** The legacy patterns no class has. */
  method LegacyBeyond(s: Sources, classes: map<string, seq<Pattern>>) returns (legacy: seq<Pattern>)
    requires ClassesLoaded(s, classes, |s.mandatory|)
    ensures forall p :: p in legacy <==> p in s.legacy && !SomeClassDeclares(s, p)
  {
    legacy := [];
    var listed := Unique(s.legacy);
    var i := 0;
    while i < |listed|
      invariant 0 <= i <= |listed|
      invariant forall p :: p in legacy <==> p in listed[..i] && !SomeClassDeclares(s, p)
    {
      assert listed[i] in listed;
      KnownPatterns(s, classes, listed[i]);
      if !(exists kind :: kind in classes && listed[i] in classes[kind]) {
        legacy := legacy + [listed[i]];
      }
      i := i + 1;
    }
    assert listed[..i] == listed;
  }

  method LoadDataPolicy(s: Sources) returns (out: Option<Policy>)
    requires ProperClasses(s.mandatory)
    ensures out.None? <==> LocalRefused(s)
    ensures out.Some? ==> ClassesLoaded(s, out.value.classes, |s.mandatory|)
    ensures out.Some? ==> forall p :: p in out.value.legacy <==> p in s.legacy && !SomeClassDeclares(s, p)
  {
    if exists kind :: kind in s.local && !KnownClass(s.mandatory, kind) {
      return None;
    }
    var classes := LoadClasses(s);
    var legacy := LegacyBeyond(s, classes);
    return Some(Policy(classes, legacy));
  }

  lemma KnownPatterns(s: Sources, classes: map<string, seq<Pattern>>, p: Pattern)
    requires ClassesLoaded(s, classes, |s.mandatory|)
    ensures (exists kind :: kind in classes && p in classes[kind]) <==> SomeClassDeclares(s, p)
  {
    if exists kind :: kind in classes && p in classes[kind] {
      var kind :| kind in classes && p in classes[kind];
      var i :| 0 <= i < |s.mandatory| && s.mandatory[i].snapshot && s.mandatory[i].name == kind;
      assert ClassDeclares(s, s.mandatory[i], p);
    }
    if SomeClassDeclares(s, p) {
      var o :| ClassDeclares(s, o, p);
      var i :| 0 <= i < |s.mandatory| && s.mandatory[i] == o;
      assert s.mandatory[i].name in classes;
    }
  }

  /** `snapshot_patterns`: every pattern with its kind, classes first. */
  method SnapshotPatterns(s: Sources, policy: Policy) returns (pairs: seq<Pair>)
    requires ClassesLoaded(s, policy.classes, |s.mandatory|)
    requires forall p :: p in policy.legacy <==> p in s.legacy && !SomeClassDeclares(s, p)
    ensures forall pair :: pair in pairs <==> Declares(s, pair.kind, pair.pattern)
  {
    pairs := [];
    var n := 0;
    while n < |s.mandatory|
      invariant 0 <= n <= |s.mandatory|
      invariant forall pair: Pair :: pair in pairs <==>
        exists i :: 0 <= i < n && s.mandatory[i].name == pair.kind && ClassDeclares(s, s.mandatory[i], pair.pattern)
    {
      var o := s.mandatory[n];
      if o.snapshot {
        var patterns := policy.classes[o.name];
        var more := seq(|patterns|, i requires 0 <= i < |patterns| => Pair(o.name, patterns[i]));
        forall pair: Pair ensures pair in more <==> pair.kind == o.name && ClassDeclares(s, o, pair.pattern) {
          if pair in more {
            var i :| 0 <= i < |more| && more[i] == pair;
            assert patterns[i] in patterns;
          }
          if pair.kind == o.name && pair.pattern in patterns {
            var i :| 0 <= i < |patterns| && patterns[i] == pair.pattern;
            assert more[i] == pair;
          }
        }
        pairs := pairs + more;
      }
      n := n + 1;
    }
    var legacy := seq(|policy.legacy|, i requires 0 <= i < |policy.legacy| => Pair(LEGACY, policy.legacy[i]));
    forall pair: Pair ensures pair in legacy <==> pair.kind == LEGACY && pair.pattern in policy.legacy {
      if pair in legacy {
        var i :| 0 <= i < |legacy| && legacy[i] == pair;
        assert policy.legacy[i] in policy.legacy;
      }
      if pair.kind == LEGACY && pair.pattern in policy.legacy {
        var i :| 0 <= i < |policy.legacy| && policy.legacy[i] == pair.pattern;
        assert legacy[i] == pair;
      }
    }
    ghost var classPairs := pairs;
    pairs := pairs + legacy;
    forall pair: Pair
      ensures pair in classPairs <==> exists o :: ClassDeclares(s, o, pair.pattern) && o.name == pair.kind
    {
      if exists o :: ClassDeclares(s, o, pair.pattern) && o.name == pair.kind {
        var o :| ClassDeclares(s, o, pair.pattern) && o.name == pair.kind;
        var i :| 0 <= i < |s.mandatory| && s.mandatory[i] == o;
      }
    }
  }

  // ------------------------------------------------------------------ resolving

  ghost predicate Labelled(w: Walk, pairs: seq<Pair>, f: Path, kind: string) {
    exists pair :: pair in pairs && pair.kind == kind && Protects(w, pair.pattern, f)
  }

  /** The dictionary of `resolve` after some of the pairs. */
  ghost predicate Selecting(w: Walk, selected: map<string, (Path, set<string>)>, pairs: seq<Pair>) {
    && (forall k :: k in selected ==> Joined(selected[k].0) == k && Lookup(w.root, selected[k].0).Some?
                                      && selected[k].1 != {})
    && (forall k, kind :: k in selected ==> (kind in selected[k].1 <==> Labelled(w, pairs, selected[k].0, kind)))
    && (forall f, kind :: Labelled(w, pairs, f, kind) ==> Joined(f) in selected && selected[Joined(f)].0 == f)
  }

  lemma ProtectedExists(w: Walk, pattern: Pattern, f: Path)
    requires Protects(w, pattern, f)
    ensures Lookup(w.root, f) == Some(File)
  {
  }

  lemma LabelledMore(w: Walk, pairs: seq<Pair>, pair: Pair, f: Path, kind: string)
    ensures Labelled(w, pairs + [pair], f, kind) <==>
      Labelled(w, pairs, f, kind) || (kind == pair.kind && Protects(w, pair.pattern, f))
  {
    assert forall p :: p in pairs + [pair] <==> p in pairs || p == pair;
  }

  /** `Selecting` for some pairs, with part of one more pair's files added. */
  ghost predicate SelectingPart(w: Walk, selected: map<string, (Path, set<string>)>, done: seq<Pair>, pair: Pair,
                                seen: seq<Path>)
  {
    && (forall k :: k in selected ==> Joined(selected[k].0) == k && Lookup(w.root, selected[k].0).Some?
                                      && selected[k].1 != {})
    && (forall k, kind :: k in selected ==>
          (kind in selected[k].1 <==>
           Labelled(w, done, selected[k].0, kind) || (kind == pair.kind && selected[k].0 in seen)))
    && (forall f, kind :: Labelled(w, done, f, kind) ==> Joined(f) in selected && selected[Joined(f)].0 == f)
    && (forall f :: f in seen ==> Joined(f) in selected && selected[Joined(f)].0 == f)
  }

  function Add(selected: map<string, (Path, set<string>)>, f: Path, kind: string): map<string, (Path, set<string>)> {
    selected[Joined(f) := (f, (if Joined(f) in selected then selected[Joined(f)].1 else {}) + {kind})]
  }

  lemma AddKeepsSelecting(w: Walk, selected: map<string, (Path, set<string>)>, done: seq<Pair>, pair: Pair,
                          seen: seq<Path>, f: Path)
    requires RealTree(w) && SelectingPart(w, selected, done, pair, seen) && Lookup(w.root, f).Some?
    ensures SelectingPart(w, Add(selected, f, pair.kind), done, pair, seen + [f])
  {
    var out := Add(selected, f, pair.kind);
    if Joined(f) in selected {
      JoinedInjective(selected[Joined(f)].0, f);
    } else {
      forall kind ensures !Labelled(w, done, f, kind) {
      }
    }
    forall k, kind | k in out
      ensures kind in out[k].1 <==> Labelled(w, done, out[k].0, kind) || (kind == pair.kind && out[k].0 in seen + [f])
    {
      if k != Joined(f) {
        assert out[k].0 != f;
      }
    }
  }

  lemma SelectedWhole(w: Walk, selected: map<string, (Path, set<string>)>, done: seq<Pair>, pair: Pair, files: seq<Path>)
    requires SelectingPart(w, selected, done, pair, files)
    requires forall f :: f in files <==> Protects(w, pair.pattern, f)
    ensures Selecting(w, selected, done + [pair])
  {
    forall f, kind ensures Labelled(w, done + [pair], f, kind) <==>
        Labelled(w, done, f, kind) || (kind == pair.kind && Protects(w, pair.pattern, f))
    {
      LabelledMore(w, done, pair, f, kind);
    }
  }

  method SelectFiles(w: Walk, pair: Pair, files: seq<Path>, selected: map<string, (Path, set<string>)>, ghost done: seq<Pair>)
    returns (out: map<string, (Path, set<string>)>)
    requires RealTree(w) && Selecting(w, selected, done)
    requires forall f :: f in files <==> Protects(w, pair.pattern, f)
    ensures Selecting(w, out, done + [pair])
  {
    out := selected;
    var i := 0;
    while i < |files|
      invariant 0 <= i <= |files|
      invariant SelectingPart(w, out, done, pair, files[..i])
    {
      assert files[i] in files;
      ProtectedExists(w, pair.pattern, files[i]);
      AddKeepsSelecting(w, out, done, pair, files[..i], files[i]);
      assert files[..i + 1] == files[..i] + [files[i]];
      out := Add(out, files[i], pair.kind);
      i := i + 1;
    }
    assert files[..i] == files;
    SelectedWhole(w, out, done, pair, files);
  }

  ghost predicate Resolved(w: Walk, pairs: seq<Pair>, files: seq<ProtectedFile>) {
    && (forall i, j :: 0 <= i < j < |files| ==> Less(Joined(files[i].path), Joined(files[j].path)))
    && (forall file :: file in files ==>
          Increasing(file.classes) && file.classes != []
          && forall kind :: kind in file.classes <==> Labelled(w, pairs, file.path, kind))
    && (forall f, kind :: Labelled(w, pairs, f, kind) ==> exists file :: file in files && file.path == f)
  }

  /** The files selected under these keys, with their classes in order. */
  ghost predicate Lists(selected: map<string, (Path, set<string>)>, keys: seq<string>, listed: seq<ProtectedFile>) {
    && |listed| == |keys|
    && (forall j :: 0 <= j < |keys| ==> keys[j] in selected && listed[j].path == selected[keys[j]].0)
    && (forall j :: 0 <= j < |keys| ==>
          Increasing(listed[j].classes) && forall kind :: kind in listed[j].classes <==> kind in selected[keys[j]].1)
  }

  method List(selected: map<string, (Path, set<string>)>, keys: seq<string>) returns (listed: seq<ProtectedFile>)
    requires forall k :: k in keys ==> k in selected
    ensures Lists(selected, keys, listed)
  {
    listed := [];
    var i := 0;
    while i < |keys|
      invariant 0 <= i <= |keys|
      invariant Lists(selected, keys[..i], listed)
    {
      assert keys[i] in keys;
      var classes := Sorted(selected[keys[i]].1);
      listed := listed + [ProtectedFile(selected[keys[i]].0, classes)];
      i := i + 1;
    }
    assert keys[..i] == keys;
  }

  /** `resolve`: every file some pattern protects, once, in name order, with exactly
      the labels of the patterns that protect it. */
  method Resolve(w: Walk, pairs: seq<Pair>) returns (out: Option<seq<ProtectedFile>>)
    requires RealTree(w)
    ensures out.None? <==> exists pair :: pair in pairs && FilesRefused(w, pair.pattern)
    ensures out.Some? ==> Resolved(w, pairs, out.value)
  {
    var selected: map<string, (Path, set<string>)> := map[];
    var n := 0;
    while n < |pairs|
      invariant 0 <= n <= |pairs|
      invariant Selecting(w, selected, pairs[..n])
      invariant forall pair :: pair in pairs[..n] ==> !FilesRefused(w, pair.pattern)
    {
      var pair := pairs[n];
      assert pair in pairs;
      var files := ExpandPatternFiles(w, pair.pattern);
      if files.None? {
        return None;
      }
      selected := SelectFiles(w, pair, files.value, selected, pairs[..n]);
      assert pairs[..n + 1] == pairs[..n] + [pair];
      n := n + 1;
    }
    assert pairs[..n] == pairs;
    var keys := Sorted(selected.Keys);
    var listed := List(selected, keys);
    ListedResolves(w, pairs, selected, keys, listed);
    return Some(listed);
  }

  lemma ListedResolves(w: Walk, pairs: seq<Pair>, selected: map<string, (Path, set<string>)>, keys: seq<string>,
                       listed: seq<ProtectedFile>)
    requires Selecting(w, selected, pairs) && Increasing(keys)
    requires forall k :: k in keys <==> k in selected
    requires Lists(selected, keys, listed)
    ensures Resolved(w, pairs, listed)
  {
    forall file | file in listed
      ensures Increasing(file.classes) && file.classes != []
      ensures forall kind :: kind in file.classes <==> Labelled(w, pairs, file.path, kind)
    {
      var j :| 0 <= j < |listed| && listed[j] == file;
      var kind :| kind in selected[keys[j]].1;
      assert kind in file.classes;
    }
    forall f, kind | Labelled(w, pairs, f, kind) ensures exists file :: file in listed && file.path == f {
      assert Joined(f) in keys;
      var j :| 0 <= j < |keys| && keys[j] == Joined(f);
      assert listed[j] in listed;
    }
  }

  // ------------------------------------------------------------------- theorems

  ghost predicate SourcesProtect(w: Walk, s: Sources, f: Path) {
    exists kind, pattern :: Declares(s, kind, pattern) && Protects(w, pattern, f)
  }

  /** Growing the additive sources, with the built-in classes as they are. */
  ghost predicate Extends(s: Sources, t: Sources) {
    && s.mandatory == t.mandatory
    && (forall kind, pattern :: AddsTo(s.local, kind, pattern) ==> AddsTo(t.local, kind, pattern))
    && (forall pattern :: pattern in s.legacy ==> pattern in t.legacy)
  }

  /** A declared pattern stays declared, and keeps its kind unless it was a legacy
      entry that a class now declares itself. */
  lemma DeclaredStays(s: Sources, t: Sources, kind: string, pattern: Pattern)
    requires ProperClasses(s.mandatory) && Extends(s, t) && Declares(s, kind, pattern)
    ensures exists kind' :: Declares(t, kind', pattern)
    ensures Declares(t, kind, pattern) <==> kind != LEGACY || !SomeClassDeclares(t, pattern)
  {
    if kind == LEGACY {
      if SomeClassDeclares(t, pattern) {
        var o :| ClassDeclares(t, o, pattern);
        assert Declares(t, o.name, pattern);
      } else {
        assert Declares(t, LEGACY, pattern);
      }
    } else {
      var o :| ClassDeclares(s, o, pattern) && o.name == kind;
      assert ClassDeclares(t, o, pattern);
      assert Declares(t, kind, pattern);
    }
  }

  /** Adding local or legacy patterns never removes a file from the resolved set. */
  lemma AddingNeverRemoves(w: Walk, s: Sources, t: Sources, f: Path)
    requires ProperClasses(s.mandatory) && Extends(s, t) && SourcesProtect(w, s, f)
    ensures SourcesProtect(w, t, f)
  {
    var kind, pattern :| Declares(s, kind, pattern) && Protects(w, pattern, f);
    DeclaredStays(s, t, kind, pattern);
    var kind' :| Declares(t, kind', pattern);
  }

  /** Nor can it turn a refusal into a success. */
  lemma AddingNeverHidesARefusal(w: Walk, s: Sources, t: Sources, kind: string, pattern: Pattern)
    requires ProperClasses(s.mandatory) && Extends(s, t)
    requires Declares(s, kind, pattern) && FilesRefused(w, pattern)
    ensures exists kind' :: Declares(t, kind', pattern) && FilesRefused(w, pattern)
  {
    DeclaredStays(s, t, kind, pattern);
    var kind' :| Declares(t, kind', pattern);
    assert Declares(t, kind', pattern) && FilesRefused(w, pattern);
  }

  /** What loading and resolving promise, read off the sources alone. */
  ghost predicate ResolvesTo(w: Walk, s: Sources, out: Option<seq<ProtectedFile>>) {
    && (out.None? <==> LocalRefused(s) || SomeDeclaredRefused(w, s))
    && (out.Some? ==> exists pairs: seq<Pair> :: PairsOf(s, pairs) && Resolved(w, pairs, out.value))
  }

  ghost predicate SomeDeclaredRefused(w: Walk, s: Sources) {
    exists kind, pattern :: Declares(s, kind, pattern) && FilesRefused(w, pattern)
  }

  ghost predicate PairsOf(s: Sources, pairs: seq<Pair>) {
    forall pair :: pair in pairs <==> Declares(s, pair.kind, pair.pattern)
  }

  /** Loading the policy, listing its patterns and resolving them, one after another. */
  method ResolveSources(w: Walk, s: Sources) returns (out: Option<seq<ProtectedFile>>)
    requires RealTree(w) && ProperClasses(s.mandatory)
    ensures ResolvesTo(w, s, out)
  {
    var policy := LoadDataPolicy(s);
    if policy.None? {
      return None;
    }
    var pairs := SnapshotPatterns(s, policy.value);
    out := Resolve(w, pairs);
    if exists pair :: pair in pairs && FilesRefused(w, pair.pattern) {
      var pair :| pair in pairs && FilesRefused(w, pair.pattern);
      assert Declares(s, pair.kind, pair.pattern);
    }
    if SomeDeclaredRefused(w, s) {
      ghost var kind, pattern :| Declares(s, kind, pattern) && FilesRefused(w, pattern);
      assert Pair(kind, pattern) in pairs;
    }
    assert PairsOf(s, pairs);
  }

  /** Resolving before and after adding local or legacy patterns: when both succeed no
      file is gone, and a refusal caused by a pattern stays a refusal. */
  lemma AddingAndResolving(w: Walk, s: Sources, t: Sources, before: Option<seq<ProtectedFile>>,
                           after: Option<seq<ProtectedFile>>)
    requires ProperClasses(s.mandatory) && Extends(s, t) && ResolvesTo(w, s, before) && ResolvesTo(w, t, after)
    ensures before.Some? && after.Some? ==>
              forall file :: file in before.value ==> exists kept :: kept in after.value && kept.path == file.path
    ensures before.None? && !LocalRefused(s) ==> after.None?
  {
    if before.Some? && after.Some? {
      var pairs :| PairsOf(s, pairs) && Resolved(w, pairs, before.value);
      var pairs' :| PairsOf(t, pairs') && Resolved(w, pairs', after.value);
      forall file | file in before.value ensures exists kept :: kept in after.value && kept.path == file.path {
        ResolvedFromSources(w, s, pairs, before.value, file.path);
        AddingNeverRemoves(w, s, t, file.path);
        ResolvedFromSources(w, t, pairs', after.value, file.path);
      }
    }
    if SomeDeclaredRefused(w, s) {
      var kind, pattern :| Declares(s, kind, pattern) && FilesRefused(w, pattern);
      AddingNeverHidesARefusal(w, s, t, kind, pattern);
    }
  }

  /** What resolving a loaded policy returns, read off its sources alone. */
  lemma ResolvedFromSources(w: Walk, s: Sources, pairs: seq<Pair>, files: seq<ProtectedFile>, f: Path)
    requires forall pair :: pair in pairs <==> Declares(s, pair.kind, pair.pattern)
    requires Resolved(w, pairs, files)
    ensures (exists file :: file in files && file.path == f) <==> SourcesProtect(w, s, f)
  {
    if exists file :: file in files && file.path == f {
      var file :| file in files && file.path == f;
      assert file.classes[0] in file.classes;
      assert Labelled(w, pairs, f, file.classes[0]);
      var pair :| pair in pairs && Protects(w, pair.pattern, f);
      assert Declares(s, pair.kind, pair.pattern);
    }
    if SourcesProtect(w, s, f) {
      var kind, pattern :| Declares(s, kind, pattern) && Protects(w, pattern, f);
      assert Pair(kind, pattern) in pairs;
      assert Labelled(w, pairs, f, kind);
    }
  }
}
