/** Relative paths as the policy names them, and the order it lists them in. */
module PathOrder {
  import opened GlobModel

  /** `as_posix` of a relative path. */
  function Joined(p: Path): string {
    if p == [] then "."
    else if |p| == 1 then p[0]
    else p[0] + "/" + Joined(p[1..])
  }

  predicate ValidName(name: string) {
    name != "" && name != "." && '/' !in name
  }

  predicate ValidPath(p: Path) {
    forall i :: 0 <= i < |p| ==> ValidName(p[i])
  }

  lemma JoinedSlash(p: Path)
    requires ValidPath(p)
    ensures |p| <= 1 ==> '/' !in Joined(p)
    ensures |p| > 1 ==> |p[0]| < |Joined(p)| && Joined(p)[|p[0]|] == '/' && Joined(p)[..|p[0]|] == p[0]
  {
    if |p| > 1 {
      assert Joined(p) == p[0] + ("/" + Joined(p[1..]));
    }
  }

  /** Different paths have different names. */
  lemma {:induction false} JoinedInjective(p: Path, q: Path)
    requires ValidPath(p) && ValidPath(q) && Joined(p) == Joined(q)
    ensures p == q
    decreases |p|
  {
    JoinedSlash(p);
    JoinedSlash(q);
    assert |p| > 1 ==> Joined(p)[|p[0]|] in Joined(p);
    assert |q| > 1 ==> Joined(q)[|q[0]|] in Joined(q);
    if |p| > 1 && |q| > 1 {
      SameHead(p[0], q[0], Joined(p));
      assert Joined(p) == (p[0] + "/") + Joined(p[1..]);
      assert Joined(q) == (q[0] + "/") + Joined(q[1..]);
      assert Joined(p)[|p[0]| + 1..] == Joined(p[1..]);
      assert Joined(q)[|q[0]| + 1..] == Joined(q[1..]);
      JoinedInjective(p[1..], q[1..]);
      assert p == [p[0]] + p[1..] && q == [q[0]] + q[1..];
    } else if |p| == 1 && |q| == 1 {
      assert p == [p[0]] && q == [q[0]];
    }
  }

  lemma SameHead(a: string, b: string, s: string)
    requires '/' !in a && '/' !in b
    requires |a| < |s| && s[..|a|] == a && s[|a|] == '/'
    requires |b| < |s| && s[..|b|] == b && s[|b|] == '/'
    ensures a == b
  {
    assert forall i :: 0 <= i < |a| ==> a[i] in a && s[i] == a[i];
    assert forall i :: 0 <= i < |b| ==> b[i] in b && s[i] == b[i];
  }

  // ---------------------------------------------------------------- ordering

  predicate Less(a: string, b: string) {
    b != [] && (a == [] || a[0] < b[0] || (a[0] == b[0] && Less(a[1..], b[1..])))
  }

  lemma {:induction false} LessTotal(a: string, b: string)
    ensures a == b || Less(a, b) || Less(b, a)
    decreases |a|
  {
    if a != [] && b != [] && a[0] == b[0] {
      LessTotal(a[1..], b[1..]);
      assert a == [a[0]] + a[1..] && b == [b[0]] + b[1..];
    }
  }

  lemma {:induction false} LessTransitive(a: string, b: string, c: string)
    requires Less(a, b) && Less(b, c)
    ensures Less(a, c)
    decreases |a|
  {
    if a != [] && a[0] == b[0] && b[0] == c[0] {
      LessTransitive(a[1..], b[1..], c[1..]);
    }
  }

  lemma {:induction false} LessIrreflexive(a: string)
    ensures !Less(a, a)
    decreases |a|
  {
    if a != [] {
      LessIrreflexive(a[1..]);
    }
  }

  ghost predicate Increasing(keys: seq<string>) {
    forall i, j :: 0 <= i < j < |keys| ==> Less(keys[i], keys[j])
  }

  /** An increasing list is determined by what it contains. */
  lemma {:induction false} IncreasingUnique(a: seq<string>, b: seq<string>)
    requires Increasing(a) && Increasing(b)
    requires forall k :: k in a <==> k in b
    ensures a == b
    decreases |a|
  {
    assert b != [] ==> b[0] in b;
    if a != [] {
      assert a[0] in a;
      assert b != [];
      assert b[0] in b;
      var i :| 0 <= i < |b| && b[i] == a[0];
      var j :| 0 <= j < |a| && a[j] == b[0];
      if i > 0 && j > 0 {
        LessTransitive(a[0], a[j], a[0]);
        LessIrreflexive(a[0]);
      }
      assert a[0] == b[0];
      forall k ensures k in a[1..] <==> k in b[1..] {
        RestExcludesFirst(a, k);
        RestExcludesFirst(b, k);
      }
      IncreasingUnique(a[1..], b[1..]);
      assert a == [a[0]] + a[1..] && b == [b[0]] + b[1..];
    }
  }

  lemma RestExcludesFirst(a: seq<string>, k: string)
    requires Increasing(a) && a != []
    ensures k in a[1..] <==> k in a && k != a[0]
  {
    LessIrreflexive(a[0]);
    if k in a && k != a[0] {
      var i :| 0 <= i < |a| && a[i] == k;
      assert a[1..][i - 1] == k;
    }
  }

  method Insert(keys: seq<string>, key: string) returns (out: seq<string>)
    requires Increasing(keys) && key !in keys
    ensures Increasing(out)
    ensures forall k :: k in out <==> k in keys || k == key
  {
    var i := 0;
    while i < |keys| && Less(keys[i], key)
      invariant 0 <= i <= |keys|
      invariant forall j :: 0 <= j < i ==> Less(keys[j], key)
    {
      i := i + 1;
    }
    out := keys[..i] + [key] + keys[i..];
    InsertedAt(keys, key, i);
  }

  /** A key between those below and those above it keeps the list increasing. */
  lemma InsertedAt(keys: seq<string>, key: string, i: nat)
    requires Increasing(keys) && key !in keys && i <= |keys|
    requires forall j :: 0 <= j < i ==> Less(keys[j], key)
    requires i < |keys| ==> !Less(keys[i], key)
    ensures Increasing(keys[..i] + [key] + keys[i..])
    ensures forall k :: k in keys[..i] + [key] + keys[i..] <==> k in keys || k == key
  {
    forall j | i <= j < |keys| ensures Less(key, keys[j]) {
      LessTotal(keys[i], key);
      if j > i {
        LessTransitive(key, keys[i], keys[j]);
      }
    }
    assert keys == keys[..i] + keys[i..];
  }

  method Sorted(keys: set<string>) returns (out: seq<string>)
    ensures Increasing(out)
    ensures forall k :: k in out <==> k in keys
  {
    out := [];
    var left := keys;
    while left != {}
      invariant left <= keys && Increasing(out)
      invariant forall k :: k in out <==> k in keys && k !in left
      decreases |left|
    {
      var key :| key in left;
      out := Insert(out, key);
      left := left - {key};
    }
  }
}
