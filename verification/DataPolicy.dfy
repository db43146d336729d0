/** From patterns to protected files: expansion into files, the policy's additive
    sources, and resolution, with what adding a pattern can change. */
module DataPolicy {
  import opened Common
  import opened GlobModel
  import opened GlobProof
  import opened PathOrder

  type Pattern = seq<string>

  /** What the walk is given: matching rules, forbidden paths, and the tree. */
  datatype Walk = Walk(rules: Rules, forbidden: Path -> bool, root: Node)

  /** A tree whose names are real file names, named once per directory. */
  ghost predicate RealTree(w: Walk) {
    w.root.Dir? && WellFormed(w.root) && forall p :: Lookup(w.root, p).Some? ==> ValidPath(p)
  }

  predicate Accepted(w: Walk, pattern: Pattern, p: Path) {
    Hits(w.rules, [], w.root, pattern, p)
  }

  /** What makes `expand_pattern` raise. */
  ghost predicate PatternRefused(w: Walk, pattern: Pattern) {
    exists p :: Trips(w.rules, [], w.root, pattern, p) || (Accepted(w, pattern, p) && w.forbidden(p))
  }

  /** A file at or below `m`, through directories and names that are not temporaries. */
  predicate FileBelow(w: Walk, m: Path, f: Path) {
    Below(m, f) && Durable(w.rules, f[|m|..]) && Lookup(w.root, f) == Some(File)
  }

  predicate UnsafeBelowMatch(w: Walk, m: Path, p: Path) {
    Below(m, p) && Durable(w.rules, p[|m|..]) && Unsafe([], w.root, p)
  }

  /** The files a pattern protects. */
  ghost predicate Protects(w: Walk, pattern: Pattern, f: Path) {
    exists m :: Accepted(w, pattern, m) && FileBelow(w, m, f)
  }

  /** What makes `expand_pattern_files` raise. */
  ghost predicate FilesRefused(w: Walk, pattern: Pattern) {
    || PatternRefused(w, pattern)
    || (exists m, p :: Accepted(w, pattern, m)
                       && (UnsafeBelowMatch(w, m, p) || (FileBelow(w, m, p) && w.forbidden(p))))
  }

  ghost predicate InOrder(paths: seq<Path>) {
    forall i, j :: 0 <= i < j < |paths| ==> Less(Joined(paths[i]), Joined(paths[j]))
  }

  // ----------------------------------------------------------------- subtrees

  lemma {:induction false} LookupConcat(node: Node, p: Path, q: Path)
    ensures Lookup(node, p + q) ==
      if Lookup(node, p).Some? then Lookup(Lookup(node, p).value, q) else None
    decreases |p|
  {
    if p == [] {
      assert p + q == q;
    } else if node.Dir? && Find(node.entries, p[0]).Some? {
      assert (p + q)[1..] == p[1..] + q;
      LookupConcat(Find(node.entries, p[0]).value, p[1..], q);
    }
  }

  lemma {:induction false} FoundWellFormed(entries: Entries, name: string)
    requires WellFormedEntries(entries) && Find(entries, name).Some?
    ensures WellFormed(Find(entries, name).value)
    decreases entries
  {
    if entries.name != name {
      FoundWellFormed(entries.rest, name);
    }
  }

  lemma {:induction false} SubtreeWellFormed(node: Node, p: Path)
    requires WellFormed(node) && Lookup(node, p).Some?
    ensures WellFormed(Lookup(node, p).value)
    decreases |p|
  {
    if p != [] {
      FoundWellFormed(node.entries, p[0]);
      SubtreeWellFormed(Find(node.entries, p[0]).value, p[1..]);
    }
  }

  /** What walking a matched entry yields and refuses, in terms of the whole tree. */
  lemma WalkMeaning(w: Walk, m: Path)
    requires RealTree(w) && Lookup(w.root, m).Some?
    ensures var e := SafeTree(w.rules, m, Lookup(w.root, m).value);
            && (e.Refused? <==> exists p :: UnsafeBelowMatch(w, m, p))
            && (e.Paths? ==> forall p :: p in e.paths && Lookup(w.root, p) == Some(File) <==> FileBelow(w, m, p))
            && (e.Paths? ==> forall p :: p in e.paths ==> Present(w.root, p))
  {
    var node := Lookup(w.root, m).value;
    SubtreeWellFormed(w.root, m);
    TreeMeaning(w.rules, m, node);
    forall p | Below(m, p)
      ensures Lookup(w.root, p) == Lookup(node, p[|m|..])
      ensures [] + p == m + p[|m|..]
    {
      LookupConcat(w.root, m, p[|m|..]);
      assert m + p[|m|..] == p;
    }
    forall p ensures UnsafeBelowMatch(w, m, p) <==> Trips(w.rules, m, node, ["**"], p) {
    }
  }

  /** Top-level paths are read from the root itself. */
  lemma FromTheRoot(w: Walk, pattern: Pattern, p: Path)
    ensures p[0..] == p && Below([], p)
    ensures Accepted(w, pattern, p) ==> Present(w.root, p)
  {
    assert p[0..] == p;
  }

  // ------------------------------------------------------------------ expansion

  method InNameOrder(matches: map<string, Path>) returns (out: seq<Path>)
    requires forall k :: k in matches ==> Joined(matches[k]) == k
    ensures InOrder(out)
    ensures forall p :: p in out <==> Joined(p) in matches && matches[Joined(p)] == p
  {
    var keys := Sorted(matches.Keys);
    out := seq(|keys|, i requires 0 <= i < |keys| && keys[i] in matches => matches[keys[i]]);
    forall p ensures p in out <==> Joined(p) in matches && matches[Joined(p)] == p {
      if p in out {
        var i :| 0 <= i < |out| && out[i] == p;
        assert keys[i] in keys;
      }
      if Joined(p) in matches && matches[Joined(p)] == p {
        var i :| 0 <= i < |keys| && keys[i] == Joined(p);
        assert out[i] == p;
      }
    }
  }

  /** The dictionary of candidates by name, unless one is forbidden. */
  method ByName(w: Walk, candidates: seq<Path>) returns (out: Option<map<string, Path>>)
    requires forall p, q :: p in candidates && q in candidates && Joined(p) == Joined(q) ==> p == q
    ensures out.None? <==> exists p :: p in candidates && w.forbidden(p)
    ensures out.Some? ==> forall k :: k in out.value ==> Joined(out.value[k]) == k && out.value[k] in candidates
    ensures out.Some? ==> forall p :: p in candidates ==> Joined(p) in out.value && out.value[Joined(p)] == p
  {
    var matches: map<string, Path> := map[];
    var i := 0;
    while i < |candidates|
      invariant 0 <= i <= |candidates|
      invariant forall k :: k in matches ==> Joined(matches[k]) == k && matches[k] in candidates
      invariant forall j :: 0 <= j < i ==>
        Joined(candidates[j]) in matches && matches[Joined(candidates[j])] == candidates[j] && !w.forbidden(candidates[j])
    {
      var candidate := candidates[i];
      assert candidate in candidates;
      if w.forbidden(candidate) {
        return None;
      }
      matches := matches[Joined(candidate) := candidate];
      i := i + 1;
    }
    return Some(matches);
  }

  /** `expand_pattern`: the matching files and directories, each once, in name order. */
  method ExpandPattern(w: Walk, pattern: Pattern) returns (out: Option<seq<Path>>)
    requires RealTree(w)
    ensures out.None? <==> PatternRefused(w, pattern)
    ensures out.Some? ==> InOrder(out.value) && forall p :: p in out.value <==> Accepted(w, pattern, p)
    ensures out.Some? ==> forall p :: p in out.value ==> Lookup(w.root, p).Some? && !w.forbidden(p)
  {
    ExpandMeaning(w.rules, [], w.root, pattern);
    var expansion := ExpandParts(w.rules, [], w.root, pattern);
    if expansion.Refused? {
      return None;
    }
    NamesTellApart(w, pattern, expansion.paths);
    var matches := ByName(w, expansion.paths);
    if matches.None? {
      return None;
    }
    var listed := InNameOrder(matches.value);
    forall p | p in listed ensures Lookup(w.root, p).Some? && !w.forbidden(p) {
      FromTheRoot(w, pattern, p);
    }
    return Some(listed);
  }

  /** Candidates with one name are one path, so nothing is lost in the dictionary. */
  lemma NamesTellApart(w: Walk, pattern: Pattern, candidates: seq<Path>)
    requires RealTree(w) && forall p :: p in candidates ==> Accepted(w, pattern, p)
    ensures forall p, q :: p in candidates && q in candidates && Joined(p) == Joined(q) ==> p == q
  {
    forall p, q | p in candidates && q in candidates && Joined(p) == Joined(q) ensures p == q {
      FromTheRoot(w, pattern, p);
      FromTheRoot(w, pattern, q);
      JoinedInjective(p, q);
    }
  }

  ghost predicate Gathered(w: Walk, matches: map<string, Path>, done: seq<Path>) {
    && (forall k :: k in matches ==>
          Joined(matches[k]) == k && exists m :: m in done && FileBelow(w, m, matches[k]))
    && (forall m, f :: m in done && FileBelow(w, m, f) ==>
          Joined(f) in matches && matches[Joined(f)] == f && !w.forbidden(f))
  }

  /** The dictionary while the files below one matched entry join it. */
  ghost predicate Joining(w: Walk, m: Path, matches: map<string, Path>, found: map<string, Path>, seen: seq<Path>) {
    && (forall k :: k in found ==>
          Joined(found[k]) == k && ((k in matches && found[k] == matches[k]) || FileBelow(w, m, found[k])))
    && (forall k :: k in matches ==> k in found && found[k] == matches[k])
    && (forall f :: f in seen && Lookup(w.root, f) == Some(File) ==>
          Joined(f) in found && found[Joined(f)] == f && !w.forbidden(f))
  }

  lemma JoiningMore(w: Walk, m: Path, matches: map<string, Path>, found: map<string, Path>, seen: seq<Path>, f: Path)
    requires Joining(w, m, matches, found, seen) && FileBelow(w, m, f) && !w.forbidden(f)
    requires Joined(f) in found ==> found[Joined(f)] == f
    ensures Joining(w, m, matches, found[Joined(f) := f], seen + [f])
  {
    var out := found[Joined(f) := f];
    forall k | k in out
      ensures Joined(out[k]) == k && ((k in matches && out[k] == matches[k]) || FileBelow(w, m, out[k]))
    {
      assert k != Joined(f) ==> out[k] == found[k];
    }
    forall k | k in matches ensures k in out && out[k] == matches[k] {
      assert k in found && found[k] == matches[k];
    }
    forall x | x in seen + [f] && Lookup(w.root, x) == Some(File)
      ensures Joined(x) in out && out[Joined(x)] == x && !w.forbidden(x)
    {
      if x in seen {
        assert found[Joined(x)] == x;
      }
    }
  }

  /** The files below one matched entry join the dictionary. */
  method GatherBelow(w: Walk, m: Path, matches: map<string, Path>, ghost done: seq<Path>)
    returns (out: Option<map<string, Path>>)
    requires RealTree(w) && Present(w.root, m) && Gathered(w, matches, done)
    ensures out.None? <==> exists p :: UnsafeBelowMatch(w, m, p) || (FileBelow(w, m, p) && w.forbidden(p))
    ensures out.Some? ==> Gathered(w, out.value, done + [m])
  {
    WalkMeaning(w, m);
    var tree := SafeTree(w.rules, m, Lookup(w.root, m).value);
    if tree.Refused? {
      return None;
    }
    var items := tree.paths;
    var found := matches;
    var i := 0;
    while i < |items|
      invariant 0 <= i <= |items|
      invariant Joining(w, m, matches, found, items[..i])
    {
      var item := items[i];
      assert item in items;
      assert items[..i + 1] == items[..i] + [item];
      if Lookup(w.root, item) == Some(File) {
        if w.forbidden(item) {
          return None;
        }
        SameNameSameFile(w, found, item);
        JoiningMore(w, m, matches, found, items[..i], item);
        found := found[Joined(item) := item];
      }
      i := i + 1;
    }
    assert items[..i] == items;
    GatheredMore(w, matches, found, done, m);
    return Some(found);
  }

  lemma SameNameSameFile(w: Walk, found: map<string, Path>, item: Path)
    requires RealTree(w) && Lookup(w.root, item).Some?
    requires forall k :: k in found ==> Joined(found[k]) == k && Lookup(w.root, found[k]).Some?
    ensures Joined(item) in found ==> found[Joined(item)] == item
  {
    if Joined(item) in found {
      JoinedInjective(found[Joined(item)], item);
    }
  }

  lemma GatheredMore(w: Walk, matches: map<string, Path>, found: map<string, Path>, done: seq<Path>, m: Path)
    requires Gathered(w, matches, done)
    requires forall k :: k in found ==>
      Joined(found[k]) == k && ((k in matches && found[k] == matches[k]) || FileBelow(w, m, found[k]))
    requires forall k :: k in matches ==> k in found && found[k] == matches[k]
    requires forall f :: FileBelow(w, m, f) ==> Joined(f) in found && found[Joined(f)] == f && !w.forbidden(f)
    ensures Gathered(w, found, done + [m])
  {
    forall k | k in found ensures exists n :: n in done + [m] && FileBelow(w, n, found[k]) {
      if k in matches && found[k] == matches[k] {
        var n :| n in done && FileBelow(w, n, matches[k]);
        assert n in done + [m];
      } else {
        assert m in done + [m];
      }
    }
  }

  /** `expand_pattern_files`: the files at or below a match, each once, in name order. */
  method ExpandPatternFiles(w: Walk, pattern: Pattern) returns (out: Option<seq<Path>>)
    requires RealTree(w)
    ensures out.None? <==> FilesRefused(w, pattern)
    ensures out.Some? ==> InOrder(out.value) && forall f :: f in out.value <==> Protects(w, pattern, f)
    ensures out.Some? ==> forall f :: f in out.value ==> Lookup(w.root, f) == Some(File) && !w.forbidden(f)
  {
    var expanded := ExpandPattern(w, pattern);
    if expanded.None? {
      return None;
    }
    var candidates := expanded.value;
    var matches: map<string, Path> := map[];
    var i := 0;
    while i < |candidates|
      invariant 0 <= i <= |candidates|
      invariant Gathered(w, matches, candidates[..i])
      invariant forall m, p :: m in candidates[..i] ==>
        !UnsafeBelowMatch(w, m, p) && !(FileBelow(w, m, p) && w.forbidden(p))
    {
      var candidate := candidates[i];
      assert candidate in candidates;
      FromTheRoot(w, pattern, candidate);
      var more := GatherBelow(w, candidate, matches, candidates[..i]);
      if more.None? {
        return None;
      }
      matches := more.value;
      assert candidates[..i + 1] == candidates[..i] + [candidate];
      i := i + 1;
    }
    assert candidates[..i] == candidates;
    var listed := InNameOrder(matches);
    return Some(listed);
  }
}
