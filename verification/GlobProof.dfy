/** The expander and the matcher agree, on every tree. */
module GlobProof {
  import opened Common
  import opened GlobModel

  predicate Under(at: Path, entries: Entries, q: Path) {
    |q| > |at| && Below(at, q) && Find(entries, q[|at|]).Some?
  }

  function Child(at: Path, entries: Entries, q: Path): Node
    requires Under(at, entries, q)
  {
    Find(entries, q[|at|]).value
  }

  predicate ForestHits(r: Rules, at: Path, entries: Entries, q: Path) {
    Under(at, entries, q) && !r.temp(q[|at|]) && Hits(r, at + [q[|at|]], Child(at, entries, q), ["**"], q)
  }

  predicate ForestTrips(r: Rules, at: Path, entries: Entries, q: Path) {
    Under(at, entries, q) && !r.temp(q[|at|]) && Trips(r, at + [q[|at|]], Child(at, entries, q), ["**"], q)
  }

  predicate BelowHits(r: Rules, at: Path, entries: Entries, parts: seq<string>, q: Path) {
    && Under(at, entries, q) && !r.temp(q[|at|]) && Child(at, entries, q).Dir?
    && Hits(r, at + [q[|at|]], Child(at, entries, q), parts, q)
  }

  /** The child itself is unsafe. */
  predicate ChildTrips(at: Path, entries: Entries, q: Path) {
    && Under(at, entries, q) && q == at + [q[|at|]]
    && !Allowed(Child(at, entries, q)) && !IsRuntimeSocket(q, Child(at, entries, q))
  }

  predicate BelowTrips(r: Rules, at: Path, entries: Entries, parts: seq<string>, q: Path) {
    && Under(at, entries, q) && !r.temp(q[|at|])
    && (ChildTrips(at, entries, q)
        || (Child(at, entries, q).Dir? && Trips(r, at + [q[|at|]], Child(at, entries, q), parts, q)))
  }

  predicate SegmentHits(r: Rules, at: Path, entries: Entries, parts: seq<string>, q: Path)
    requires parts != []
  {
    && Under(at, entries, q) && Candidate(r, parts[0], q[|at|])
    && (|parts| == 1 || Child(at, entries, q).Dir?)
    && Hits(r, at + [q[|at|]], Child(at, entries, q), parts[1..], q)
  }

  predicate SegmentTrips(r: Rules, at: Path, entries: Entries, parts: seq<string>, q: Path)
    requires parts != []
  {
    && Under(at, entries, q) && Candidate(r, parts[0], q[|at|])
    && (ChildTrips(at, entries, q)
        || (|parts| > 1 && Child(at, entries, q).Dir?
            && Trips(r, at + [q[|at|]], Child(at, entries, q), parts[1..], q)))
  }

  /** One component further down a path. */
  lemma Descend(at: Path, q: Path)
    requires |q| > |at| && Below(at, q)
    ensures Below(at + [q[|at|]], q)
    ensures q[|at|..] != [] && q[|at|..][0] == q[|at|] && q[|at|..][1..] == q[|at + [q[|at|]]|..]
    ensures at + q[|at|..] == q && (at + [q[|at|]]) + q[|at + [q[|at|]]|..] == q
    ensures |q[|at|..]| == 1 <==> q == at + [q[|at|]]
  {
  }

  lemma Ascend(at: Path, name: string, q: Path)
    requires Below(at + [name], q)
    ensures |q| > |at| && Below(at, q) && q[|at|] == name
  {
    assert q[..|at|] == (at + [name])[..|at|];
    assert q[|at|] == (at + [name])[|at|];
  }

  lemma AtItself(at: Path, q: Path)
    requires Below(at, q) && |q| == |at|
    ensures q == at && q[|at|..] == []
  {
    assert q[..|at|] == q;
  }

  // ----------------------------------------------------- meaning, node by node

  lemma TreeHitsUnfold(r: Rules, at: Path, node: Node, q: Path)
    requires node.Dir?
    ensures Hits(r, at, node, ["**"], q) <==> q == at || ForestHits(r, at, node.entries, q)
    ensures Trips(r, at, node, ["**"], q) <==> ForestTrips(r, at, node.entries, q)
  {
    if Below(at, q) {
      if |q| == |at| {
        AtItself(at, q);
      } else {
        Descend(at, q);
        DurableTail(r, q[|at|..]);
      }
    }
  }

  lemma DurableTail(r: Rules, p: Path)
    requires p != []
    ensures Durable(r, p) <==> !r.temp(p[0]) && Durable(r, p[1..])
  {
    if !r.temp(p[0]) && Durable(r, p[1..]) {
      forall i | 0 <= i < |p| ensures !r.temp(p[i]) {
        if i > 0 {
          assert p[i] == p[1..][i - 1];
        }
      }
    }
    if Durable(r, p) {
      forall i | 0 <= i < |p[1..]| ensures !r.temp(p[1..][i]) {
        assert p[1..][i] == p[i + 1];
      }
    }
  }

  lemma UnsafeBelow(at: Path, node: Node, q: Path)
    requires node.Dir? && |q| > |at| && Below(at, q)
    ensures Unsafe(at, node, q[|at|..]) <==>
      && Under(at, node.entries, q)
      && Unsafe(at + [q[|at|]], Child(at, node.entries, q), q[|at + [q[|at|]]|..])
    ensures |q| == |at| + 1 ==> (Unsafe(at, node, q[|at|..]) <==> ChildTrips(at, node.entries, q))
    ensures |q| > |at| + 1 && Unsafe(at, node, q[|at|..]) ==> Child(at, node.entries, q).Dir?
  {
    Descend(at, q);
    var p := q[|at|..];
    assert |p| == 1 ==> p[1..] == [];
  }

  lemma StarsHitsUnfold(r: Rules, at: Path, node: Node, parts: seq<string>, q: Path)
    requires node.Dir? && |parts| > 1 && parts[0] == "**"
    ensures Hits(r, at, node, parts, q) <==> Hits(r, at, node, parts[1..], q) || BelowHits(r, at, node.entries, parts, q)
  {
    if Below(at, q) {
      if |q| == |at| {
        AtItself(at, q);
      } else {
        Descend(at, q);
        var p := q[|at|..];
        if Present(node, p) {
          assert Lookup(node, p) == Lookup(Find(node.entries, p[0]).value, p[1..]);
          assert |p| == 1 ==> p[1..] == [];
          assert |p| > 1 ==> Find(node.entries, p[0]).value.Dir?;
        }
      }
    }
  }

  lemma StarsTripsUnfold(r: Rules, at: Path, node: Node, parts: seq<string>, q: Path)
    requires node.Dir? && |parts| > 1 && parts[0] == "**"
    ensures Trips(r, at, node, parts, q) <==>
      Trips(r, at, node, parts[1..], q) || BelowTrips(r, at, node.entries, parts, q)
  {
    if Below(at, q) {
      if |q| == |at| {
        AtItself(at, q);
      } else {
        Descend(at, q);
        var p := q[|at|..];
        UnsafeBelow(at, node, q);
      }
    }
  }

  lemma SegmentHitsUnfold(r: Rules, at: Path, node: Node, parts: seq<string>, q: Path)
    requires node.Dir? && parts != [] && parts[0] != "**"
    ensures Hits(r, at, node, parts, q) <==> SegmentHits(r, at, node.entries, parts, q)
  {
    if Below(at, q) {
      if |q| == |at| {
        AtItself(at, q);
      } else {
        Descend(at, q);
        var p := q[|at|..];
        if Present(node, p) {
          assert Lookup(node, p) == Lookup(Find(node.entries, p[0]).value, p[1..]);
          assert |p| == 1 ==> p[1..] == [];
          assert |p| > 1 ==> Find(node.entries, p[0]).value.Dir?;
        }
      }
    }
  }

  lemma SegmentTripsUnfold(r: Rules, at: Path, node: Node, parts: seq<string>, q: Path)
    requires node.Dir? && parts != [] && parts[0] != "**"
    ensures Trips(r, at, node, parts, q) <==> SegmentTrips(r, at, node.entries, parts, q)
  {
    if Below(at, q) {
      if |q| == |at| {
        AtItself(at, q);
      } else {
        Descend(at, q);
        UnsafeBelow(at, node, q);
        var p, name := q[|at|..], q[|at|];
        assert Inspects(r, parts, p) <==> Candidate(r, parts[0], name) && (|p| == 1 || Inspects(r, parts[1..], p[1..]));
        if |p| > 1 {
          assert !ChildTrips(at, node.entries, q);
        } else if Under(at, node.entries, q) && Child(at, node.entries, q).Dir? {
          assert p[1..] == [];
          assert !Unsafe(at + [name], Child(at, node.entries, q), q[|at + [name]|..]);
        }
      }
    }
  }

  /** In a directory that names each entry once, a path goes through its first entry
      or through the rest. */
  lemma UnderFirst(at: Path, entries: Entries, q: Path)
    requires entries.More? && Find(entries.rest, entries.name).None?
    ensures Under(at, entries, q) <==> Below(at + [entries.name], q) || Under(at, entries.rest, q)
    ensures Below(at + [entries.name], q) ==>
      Under(at, entries, q) && q[|at|] == entries.name && Child(at, entries, q) == entries.node && !Under(at, entries.rest, q)
    ensures Under(at, entries.rest, q) ==>
      q[|at|] != entries.name && Child(at, entries, q) == Child(at, entries.rest, q)
  {
    if Below(at + [entries.name], q) {
      Ascend(at, entries.name, q);
    }
    if Under(at, entries, q) {
      Descend(at, q);
    }
  }

  // ------------------------------------------------------------------ agreement

  lemma {:induction false} TreeMeaning(r: Rules, at: Path, node: Node)
    requires WellFormed(node)
    ensures var e := SafeTree(r, at, node);
            && (e.Refused? <==> exists q :: Trips(r, at, node, ["**"], q))
            && (e.Paths? ==> forall q :: q in e.paths <==> Hits(r, at, node, ["**"], q))
    decreases node, 1
  {
    if node.Dir? {
      ForestMeaning(r, at, node.entries);
      forall q
        ensures Hits(r, at, node, ["**"], q) <==> q == at || ForestHits(r, at, node.entries, q)
        ensures Trips(r, at, node, ["**"], q) <==> ForestTrips(r, at, node.entries, q)
      {
        TreeHitsUnfold(r, at, node, q);
      }
    } else {
      forall q | Hits(r, at, node, ["**"], q) || Trips(r, at, node, ["**"], q) ensures q == at {
        if |q| == |at| {
          AtItself(at, q);
        }
      }
      assert at[|at|..] == [] && at + [] == at;
      assert Hits(r, at, node, ["**"], at) <==> node.File?;
      assert Trips(r, at, node, ["**"], at) <==> !Allowed(node) && !IsRuntimeSocket(at, node);
    }
  }

  lemma {:induction false} ForestMeaning(r: Rules, at: Path, entries: Entries)
    requires WellFormedEntries(entries)
    ensures var e := SafeForest(r, at, entries);
            && (e.Refused? <==> exists q :: ForestTrips(r, at, entries, q))
            && (e.Paths? ==> forall q :: q in e.paths <==> ForestHits(r, at, entries, q))
    decreases entries, 0
  {
    if entries.More? {
      TreeMeaning(r, at + [entries.name], entries.node);
      ForestMeaning(r, at, entries.rest);
      forall q
        ensures ForestHits(r, at, entries, q) <==>
          ForestHits(r, at, entries.rest, q)
          || (!r.temp(entries.name) && Hits(r, at + [entries.name], entries.node, ["**"], q))
        ensures ForestTrips(r, at, entries, q) <==>
          ForestTrips(r, at, entries.rest, q)
          || (!r.temp(entries.name) && Trips(r, at + [entries.name], entries.node, ["**"], q))
      {
        UnderFirst(at, entries, q);
      }
    }
  }

  lemma {:induction false} ExpandMeaning(r: Rules, at: Path, node: Node, parts: seq<string>)
    requires WellFormed(node) && Allowed(node)
    ensures var e := ExpandParts(r, at, node, parts);
            && (e.Refused? <==> exists q :: Trips(r, at, node, parts, q))
            && (e.Paths? ==> forall q :: q in e.paths <==> Hits(r, at, node, parts, q))
    decreases node, |parts| + 1, 1
  {
    if parts == [] {
      assert at[|at|..] == [];
      forall q | Hits(r, at, node, parts, q) ensures q == at {
        AtItself(at, q);
      }
    } else if parts == ["**"] {
      TreeMeaning(r, at, node);
    } else if node.File? {
      FileMeaning(r, at, node, parts);
    } else if parts[0] == "**" {
      ExpandMeaning(r, at, node, parts[1..]);
      BelowMeaning(r, at, node.entries, parts);
      forall q
        ensures Hits(r, at, node, parts, q) <==> Hits(r, at, node, parts[1..], q) || BelowHits(r, at, node.entries, parts, q)
        ensures Trips(r, at, node, parts, q) <==>
          Trips(r, at, node, parts[1..], q) || BelowTrips(r, at, node.entries, parts, q)
      {
        StarsHitsUnfold(r, at, node, parts, q);
        StarsTripsUnfold(r, at, node, parts, q);
      }
    } else {
      SegmentMeaning(r, at, node.entries, parts);
      forall q
        ensures Hits(r, at, node, parts, q) <==> SegmentHits(r, at, node.entries, parts, q)
        ensures Trips(r, at, node, parts, q) <==> SegmentTrips(r, at, node.entries, parts, q)
      {
        SegmentHitsUnfold(r, at, node, parts, q);
        SegmentTripsUnfold(r, at, node, parts, q);
      }
    }
  }

  lemma {:induction false} FileMeaning(r: Rules, at: Path, node: Node, parts: seq<string>)
    requires node.File? && parts != [] && parts != ["**"]
    ensures var e := ExpandParts(r, at, node, parts);
            && e.Paths? && (forall q :: q in e.paths <==> Hits(r, at, node, parts, q))
            && forall q :: !Trips(r, at, node, parts, q)
    decreases |parts|
  {
    if parts[0] == "**" {
      if parts[1..] == ["**"] {
        assert SafeTree(r, at, node) == Paths([at]);
        assert at[|at|..] == [];
      } else {
        FileMeaning(r, at, node, parts[1..]);
      }
    }
    forall q | Below(at, q) && Lookup(node, q[|at|..]).Some? ensures q == at && q[|at|..] == [] {
      AtItself(at, q);
    }
    forall q ensures parts[0] == "**" ==> (Hits(r, at, node, parts, q) <==> Hits(r, at, node, parts[1..], q)) {
    }
  }

  lemma {:induction false} BelowMeaning(r: Rules, at: Path, entries: Entries, parts: seq<string>)
    requires WellFormedEntries(entries) && |parts| > 1 && parts[0] == "**"
    ensures var e := ExpandBelow(r, at, entries, parts);
            && (e.Refused? <==> exists q :: BelowTrips(r, at, entries, parts, q))
            && (e.Paths? ==> forall q :: q in e.paths <==> BelowHits(r, at, entries, parts, q))
    decreases entries, |parts| + 1, 0
  {
    if entries.More? {
      var name, node := entries.name, entries.node;
      BelowMeaning(r, at, entries.rest, parts);
      if node.Dir? {
        ExpandMeaning(r, at + [name], node, parts);
      }
      forall q
        ensures BelowHits(r, at, entries, parts, q) <==>
          BelowHits(r, at, entries.rest, parts, q)
          || (!r.temp(name) && node.Dir? && Hits(r, at + [name], node, parts, q))
      {
        UnderFirst(at, entries, q);
      }
      forall q
        ensures BelowTrips(r, at, entries, parts, q) <==>
          BelowTrips(r, at, entries.rest, parts, q)
          || (!r.temp(name) && ((q == at + [name] && !Allowed(node) && !IsRuntimeSocket(q, node))
                                || (node.Dir? && Trips(r, at + [name], node, parts, q))))
      {
        UnderFirst(at, entries, q);
        assert Below(at + [name], at + [name]);
      }
      assert !r.temp(name) && !Allowed(node) && !IsRuntimeSocket(at + [name], node) ==>
          BelowTrips(r, at, entries, parts, at + [name]);
    }
  }

  lemma {:induction false} SegmentMeaning(r: Rules, at: Path, entries: Entries, parts: seq<string>)
    requires WellFormedEntries(entries) && parts != [] && parts[0] != "**"
    ensures var e := ExpandSegment(r, at, entries, parts);
            && (e.Refused? <==> exists q :: SegmentTrips(r, at, entries, parts, q))
            && (e.Paths? ==> forall q :: q in e.paths <==> SegmentHits(r, at, entries, parts, q))
    decreases entries, |parts|, 0
  {
    if entries.More? {
      var name, node := entries.name, entries.node;
      SegmentMeaning(r, at, entries.rest, parts);
      if Allowed(node) && (|parts| == 1 || node.Dir?) {
        ExpandMeaning(r, at + [name], node, parts[1..]);
      }
      forall q
        ensures SegmentHits(r, at, entries, parts, q) <==>
          SegmentHits(r, at, entries.rest, parts, q)
          || (Candidate(r, parts[0], name) && (|parts| == 1 || node.Dir?) && Hits(r, at + [name], node, parts[1..], q))
      {
        UnderFirst(at, entries, q);
      }
      forall q
        ensures SegmentTrips(r, at, entries, parts, q) <==>
          SegmentTrips(r, at, entries.rest, parts, q)
          || (Candidate(r, parts[0], name)
              && ((q == at + [name] && !Allowed(node) && !IsRuntimeSocket(q, node))
                  || (|parts| > 1 && node.Dir? && Trips(r, at + [name], node, parts[1..], q))))
      {
        UnderFirst(at, entries, q);
        assert Below(at + [name], at + [name]);
      }
      assert Candidate(r, parts[0], name) && !Allowed(node) && !IsRuntimeSocket(at + [name], node) ==>
          SegmentTrips(r, at, entries, parts, at + [name]);
    }
  }

  // --------------------------------------------------------- the pattern language

  /** A name a segment selects: spelled the same, or, where the segment holds a wildcard,
      fitting it and no temporary. */
  predicate Selects(r: Rules, segment: string, name: string) {
    if exists i :: 0 <= i < |segment| && (segment[i] == '*' || segment[i] == '?' || segment[i] == '[')
    then r.fits(name, segment) && !r.temp(name) else name == segment
  }

  predicate NoneTemporary(r: Rules, p: Path) {
    forall name :: name in p ==> !r.temp(name)
  }

  ghost predicate EachSelected(r: Rules, parts: seq<string>, p: Path)
    requires |p| <= |parts|
  {
    forall i :: 0 <= i < |p| ==> Selects(r, parts[i], p[i])
  }

  lemma CandidateSelects(r: Rules, segment: string, name: string)
    ensures Candidate(r, segment, name) <==> Selects(r, segment, name)
  {
  }

  lemma DurableMeans(r: Rules, p: Path)
    ensures Durable(r, p) <==> NoneTemporary(r, p)
  {
  }

  lemma FirstSelected(r: Rules, parts: seq<string>, p: Path)
    requires 0 < |p| <= |parts|
    ensures EachSelected(r, parts, p) <==> Selects(r, parts[0], p[0]) && EachSelected(r, parts[1..], p[1..])
  {
    if Selects(r, parts[0], p[0]) && EachSelected(r, parts[1..], p[1..]) {
      forall i | 0 <= i < |p| ensures Selects(r, parts[i], p[i]) {
        assert i > 0 ==> parts[1..][i - 1] == parts[i] && p[1..][i - 1] == p[i];
      }
    }
  }

  /** A pattern without `**` matches the paths of its length whose names its segments select,
      and looks at those and at the way there. */
  lemma {:induction false} PlainPattern(r: Rules, parts: seq<string>, p: Path, dir: bool)
    requires "**" !in parts
    ensures Matches(r, parts, p, dir) <==> |p| == |parts| && EachSelected(r, parts, p)
    ensures Inspects(r, parts, p) <==> 0 < |p| <= |parts| && EachSelected(r, parts, p)
    decreases |parts|
  {
    if parts != [] && p != [] {
      CandidateSelects(r, parts[0], p[0]);
      PlainPattern(r, parts[1..], p[1..], dir);
      if |p| <= |parts| {
        FirstSelected(r, parts, p);
      }
    }
  }

  /** A trailing `**` matches, and looks at, whatever is below through no temporary. */
  lemma TrailingStars(r: Rules, p: Path, dir: bool)
    ensures Matches(r, ["**"], p, dir) <==> NoneTemporary(r, p)
    ensures Inspects(r, ["**"], p) <==> NoneTemporary(r, p)
  {
    DurableMeans(r, p);
  }

  /** The rest of the pattern matches below these directories. */
  ghost predicate MatchesBelow(r: Rules, rest: seq<string>, p: Path, dir: bool, k: nat) {
    k <= |p| && NoneTemporary(r, p[..k]) && (k == 0 || k < |p| || dir) && Matches(r, rest, p[k..], dir)
  }

  ghost predicate InspectsBelow(r: Rules, rest: seq<string>, p: Path, k: nat) {
    k < |p| && NoneTemporary(r, p[..k]) && Inspects(r, rest, p[k..])
  }

  lemma OneFurther(r: Rules, p: Path, k: nat)
    requires 0 < k <= |p|
    ensures NoneTemporary(r, p[..k]) <==> !r.temp(p[0]) && NoneTemporary(r, p[1..][..k - 1])
    ensures p[k..] == p[1..][k - 1..]
  {
    assert p[..k] == [p[0]] + p[1..][..k - 1];
  }

  lemma {:induction false} SomeDirectories(r: Rules, rest: seq<string>, p: Path, dir: bool) returns (k: nat)
    requires rest != [] && Matches(r, ["**"] + rest, p, dir)
    ensures MatchesBelow(r, rest, p, dir, k)
    decreases |p|
  {
    assert (["**"] + rest)[1..] == rest && p[..0] == [] && p[0..] == p;
    if Matches(r, rest, p, dir) {
      k := 0;
    } else {
      k := SomeDirectories(r, rest, p[1..], dir);
      OneFurther(r, p, k + 1);
      k := k + 1;
    }
  }

  lemma {:induction false} DirectoriesMatch(r: Rules, rest: seq<string>, p: Path, dir: bool, k: nat)
    requires rest != [] && MatchesBelow(r, rest, p, dir, k)
    ensures Matches(r, ["**"] + rest, p, dir)
    decreases |p|
  {
    assert (["**"] + rest)[1..] == rest && p[..0] == [] && p[0..] == p;
    if k > 0 {
      OneFurther(r, p, k);
      DirectoriesMatch(r, rest, p[1..], dir, k - 1);
    }
  }

  /** `**` stands for any number of directories, none of them a temporary. */
  lemma AnyDirectories(r: Rules, rest: seq<string>, p: Path, dir: bool)
    requires rest != []
    ensures Matches(r, ["**"] + rest, p, dir) <==> exists k: nat :: MatchesBelow(r, rest, p, dir, k)
  {
    if Matches(r, ["**"] + rest, p, dir) {
      var k := SomeDirectories(r, rest, p, dir);
    }
    forall k: nat | MatchesBelow(r, rest, p, dir, k) ensures Matches(r, ["**"] + rest, p, dir) {
      DirectoriesMatch(r, rest, p, dir, k);
    }
  }

  ghost predicate LooksAt(r: Rules, rest: seq<string>, p: Path) {
    p != [] && (NoneTemporary(r, p) || exists k: nat :: InspectsBelow(r, rest, p, k))
  }

  lemma {:induction false} LookedAtOnTheWay(r: Rules, rest: seq<string>, p: Path)
    requires rest != [] && Inspects(r, ["**"] + rest, p)
    ensures LooksAt(r, rest, p)
    decreases |p|
  {
    assert (["**"] + rest)[1..] == rest && p[..0] == [] && p[0..] == p;
    if Inspects(r, rest, p) {
      assert InspectsBelow(r, rest, p, 0);
    } else if |p| > 1 {
      LookedAtOnTheWay(r, rest, p[1..]);
      if NoneTemporary(r, p[1..]) {
        assert p == [p[0]] + p[1..];
      } else {
        var k: nat :| InspectsBelow(r, rest, p[1..], k);
        OneFurther(r, p, k + 1);
        assert InspectsBelow(r, rest, p, k + 1);
      }
    } else {
      assert p == [p[0]];
    }
  }

  lemma {:induction false} DurableIsLookedAt(r: Rules, rest: seq<string>, p: Path)
    requires rest != [] && p != [] && NoneTemporary(r, p)
    ensures Inspects(r, ["**"] + rest, p)
    decreases |p|
  {
    assert (["**"] + rest)[1..] == rest;
    if |p| > 1 {
      DurableIsLookedAt(r, rest, p[1..]);
    }
  }

  lemma {:induction false} BelowIsLookedAt(r: Rules, rest: seq<string>, p: Path, k: nat)
    requires rest != [] && InspectsBelow(r, rest, p, k)
    ensures Inspects(r, ["**"] + rest, p)
    decreases |p|
  {
    assert (["**"] + rest)[1..] == rest && p[..0] == [] && p[0..] == p;
    if k > 0 {
      OneFurther(r, p, k);
      BelowIsLookedAt(r, rest, p[1..], k - 1);
    }
  }

  /** On the way it looks at every entry below through no temporary, and from each such
      directory at what the rest of the pattern looks at. */
  lemma AnyDirectoriesInspect(r: Rules, rest: seq<string>, p: Path)
    requires rest != []
    ensures Inspects(r, ["**"] + rest, p)
            <==> p != [] && (NoneTemporary(r, p) || exists k: nat :: InspectsBelow(r, rest, p, k))
  {
    if Inspects(r, ["**"] + rest, p) {
      LookedAtOnTheWay(r, rest, p);
    }
    if p != [] && NoneTemporary(r, p) {
      DurableIsLookedAt(r, rest, p);
    }
    forall k: nat | InspectsBelow(r, rest, p, k) ensures Inspects(r, ["**"] + rest, p) {
      BelowIsLookedAt(r, rest, p, k);
    }
  }

  /** What may be listed is a file or a directory; what makes an expansion refuse is a link
      or a special file, but for the one runtime socket. */
  lemma EntryKinds(at: Path, node: Node, p: Path)
    ensures Present(node, p) <==> Lookup(node, p).Some? && (Lookup(node, p).value.File? || Lookup(node, p).value.Dir?)
    ensures Unsafe(at, node, p) <==>
            Lookup(node, p).Some?
            && (Lookup(node, p).value.Link?
                || (Lookup(node, p).value.Special?
                    && !(Lookup(node, p).value.socket && at + p == [".silicon-interface", "daemon.sock"])))
  {
  }
}
