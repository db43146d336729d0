/** Conservation in the dispatcher: every claimed root is in exactly one place, is
    settled exactly once, and every contact with work has exactly one thread. */
module DispatcherInvariant {
  import opened Common
  import opened DispatcherModel

  ghost predicate DistinctTokens(batch: Batch) {
    forall i, j :: 0 <= i < j < |batch| ==> batch[i].token != batch[j].token
  }

  /** A list holds admissions of one contact, and the owner map says so, both ways. */
  ghost predicate Accounted(owner: map<nat, Place>, batch: Batch, contact: string, place: Place) {
    && DistinctTokens(batch)
    && (forall a :: a in batch ==> a.contact == contact && a.token in owner && owner[a.token] == place)
    && (forall token :: token in owner && owner[token] == place ==> token in Tokens(batch))
  }

  ghost predicate PendingInv(w: World) {
    forall c :: PendingAccounted(w, c)
  }

  ghost predicate PendingAccounted(w: World, c: string) {
    Accounted(w.owner, Held(w.slots.pending, c), c, InPending(c))
  }

  ghost predicate InjectedInv(w: World) {
    forall c :: InjectedAccounted(w, c)
  }

  ghost predicate InjectedAccounted(w: World, c: string) {
    Accounted(w.owner, Held(w.slots.injected, c), c, InInjected(c))
  }

  ghost predicate HandsInv(w: World) {
    && (forall t :: t in w.threads ==> HandAccounted(w, t))
    && (forall token :: token in w.owner && w.owner[token].InHand? ==> w.owner[token].thread in w.threads)
    && (forall token :: token in w.owner && w.owner[token].Leaked? ==> w.aborted)
  }

  ghost predicate HandAccounted(w: World, t: nat)
    requires t in w.threads
  {
    Accounted(w.owner, Hands(w.threads[t].stage), w.threads[t].contact, InHand(t))
  }

  ghost predicate PlacesInv(w: World) {
    PendingInv(w) && InjectedInv(w) && HandsInv(w)
  }

  /** An admission is both owned and settled only while its slot is being given back. */
  ghost predicate SettledInv(w: World) {
    && (forall t, a :: t in w.threads && a in SettledHands(w.threads[t].stage) ==> a.token in w.settled)
    && (forall token :: token in w.owner && token in w.settled ==>
          && w.owner[token].InHand? && w.owner[token].thread in w.threads
          && token in Tokens(SettledHands(w.threads[w.owner[token].thread].stage)))
  }

  ghost predicate ThreadsInv(w: World) {
    && (forall t :: t in w.slots.threads <==> t in w.threads && Live(w.threads[t].stage))
    && (forall t :: t in w.slots.threads ==>
          w.slots.threads[t] == w.threads[t].contact && w.slots.threads[t] in w.slots.running)
    && (forall t :: t in w.threads ==> t < w.slots.nextThread)
    && (forall t, u :: t in w.slots.threads && u in w.slots.threads && t != u ==>
          w.slots.threads[t] != w.slots.threads[u])
    && (forall c :: c in w.slots.running ==> exists t :: t in w.slots.threads && w.slots.threads[t] == c)
  }

  /** Work that waits for a turn waits for a thread about to take it. */
  ghost predicate CoveredInv(w: World) {
    && (forall c :: c in w.slots.pending ==> |w.slots.pending[c]| == 1 && WaitsAtTop(w, c))
    && (forall c :: c in w.slots.injected && !w.aborted ==> c in w.slots.running)
  }

  ghost predicate WaitsAtTop(w: World, c: string) {
    exists t :: t in w.slots.threads && t in w.threads && w.threads[t] == Thread(c, AtTop)
  }

  ghost predicate CountInv(w: World) {
    w.slots.claimed == |w.owner| <= w.slots.limit
  }

  ghost predicate WorldInv(w: World) {
    PlacesInv(w) && SettledInv(w) && ThreadsInv(w) && CoveredInv(w) && CountInv(w)
  }

  // --------------------------------------------------------------------- lists

  lemma {:induction false} TokensCount(batch: Batch)
    requires DistinctTokens(batch)
    ensures |Tokens(batch)| == |batch|
  {
    if batch != [] {
      var rest := batch[1..];
      assert forall i :: 0 <= i < |rest| ==> rest[i] == batch[i + 1];
      TokensCount(rest);
      assert batch[0].token !in Tokens(rest);
      assert Tokens(batch) == {batch[0].token} + Tokens(rest);
    }
  }

  lemma FlattenCons(first: Batch, rest: seq<Batch>)
    ensures Flatten([first] + rest) == first + Flatten(rest)
  {
    assert ([first] + rest)[1..] == rest;
  }

  lemma {:induction false} SplitFlattens(admissions: Batch)
    ensures Flatten(Split(admissions)) == admissions
    ensures admissions != [] ==> Split(admissions) != []
  {
    if admissions != [] {
      SplitFlattens(admissions[1..]);
      var rest: seq<Batch> := Split(admissions[1..]);
      if !admissions[0].review && rest != [] && rest[0] != [] && !rest[0][0].review {
        FlattenCons([admissions[0]] + rest[0], rest[1..]);
        assert ([admissions[0]] + rest[0]) + Flatten(rest[1..]) == [admissions[0]] + (rest[0] + Flatten(rest[1..]));
      } else {
        FlattenCons([admissions[0]], rest);
      }
    }
  }

  /** A batch holds something, and a review only itself. */
  predicate ProperBatch(b: Batch) {
    b != [] && forall a :: a in b && a.review ==> b == [a]
  }

  lemma {:induction false} SplitIsProper(admissions: Batch)
    ensures forall b :: b in Split(admissions) ==> ProperBatch(b)
  {
    if admissions != [] {
      SplitIsProper(admissions[1..]);
      var rest: seq<Batch> := Split(admissions[1..]);
      if !admissions[0].review && rest != [] && rest[0] != [] && !rest[0][0].review {
        var merged := [admissions[0]] + rest[0];
        assert ProperBatch(rest[0]);
        assert forall a :: a in rest[0] ==> !a.review;
        assert ProperBatch(merged);
        assert forall b :: b in rest[1..] ==> b in rest;
      } else {
        assert ProperBatch([admissions[0]]);
      }
    }
  }

  lemma SplitLosesNothing(admissions: Batch)
    ensures Flatten(Split(admissions)) == admissions
    ensures admissions != [] ==> Split(admissions) != []
    ensures forall b :: b in Split(admissions) ==> b != []
    ensures forall b, a :: b in Split(admissions) && a in b && a.review ==> b == [a]
  {
    SplitFlattens(admissions);
    SplitIsProper(admissions);
    forall b | b in Split(admissions) ensures b != [] {
      assert ProperBatch(b);
    }
    forall b, a | b in Split(admissions) && a in b && a.review ensures b == [a] {
      assert ProperBatch(b);
    }
  }

  predicate Ordinary(b: Batch) {
    b != [] && !b[0].review
  }

  /** No two neighbouring batches are ordinary: such roots are run together. */
  ghost predicate RunTogether(batches: seq<Batch>) {
    forall i, j :: 0 <= i && j == i + 1 && j < |batches| ==> !Ordinary(batches[i]) || !Ordinary(batches[j])
  }

  lemma OneMoreBatch(b: Batch, rest: seq<Batch>)
    requires RunTogether(rest) && (rest == [] || !Ordinary(b) || !Ordinary(rest[0]))
    ensures RunTogether([b] + rest)
  {
    var all := [b] + rest;
    assert forall i :: 1 <= i < |all| ==> all[i] == rest[i - 1];
  }

  lemma {:induction false} SplitRunsTogether(admissions: Batch)
    ensures RunTogether(Split(admissions))
  {
    if admissions != [] {
      SplitRunsTogether(admissions[1..]);
      SplitIsProper(admissions[1..]);
      var a, rest := admissions[0], Split(admissions[1..]);
      if !a.review && rest != [] && Ordinary(rest[0]) {
        assert rest == [rest[0]] + rest[1..];
        assert RunTogether(rest[1..]) && (rest[1..] == [] || !Ordinary(rest[1..][0]));
        OneMoreBatch([a] + rest[0], rest[1..]);
      } else {
        OneMoreBatch([a], rest);
      }
    }
  }

  lemma CardinalityOf(owner: map<nat, Place>)
    ensures |owner| == |owner.Keys|
  {
  }

  /** Reassigning the admissions of a list moves them and keeps the count. */
  lemma AssignMoves(owner: map<nat, Place>, batch: Batch, place: Place)
    requires Tokens(batch) <= owner.Keys
    ensures Assign(owner, batch, place).Keys == owner.Keys
    ensures |Assign(owner, batch, place)| == |owner|
    ensures forall token :: token in owner ==>
      Assign(owner, batch, place)[token] == if token in Tokens(batch) then place else owner[token]
  {
    assert Assign(owner, batch, place).Keys == owner.Keys;
    CardinalityOf(owner);
    CardinalityOf(Assign(owner, batch, place));
  }

  lemma TokensConcat(a: Batch, b: Batch)
    ensures Tokens(a + b) == Tokens(a) + Tokens(b)
  {
    assert forall x :: x in a + b <==> x in a || x in b;
  }

  lemma DistinctConcat(a: Batch, b: Batch)
    requires DistinctTokens(a) && DistinctTokens(b) && Tokens(a) !! Tokens(b)
    ensures DistinctTokens(a + b)
  {
    forall i, j | 0 <= i < j < |a + b| ensures (a + b)[i].token != (a + b)[j].token {
      if i < |a| <= j {
        assert a[i] in a && b[j - |a|] in b;
        assert a[i].token in Tokens(a) && b[j - |a|].token in Tokens(b);
      }
    }
  }

  // ------------------------------------------------------------------- pieces

  /** A fresh admission joins one list. */
  lemma AccountedGrows(owner: map<nat, Place>, batch: Batch, a: Admission, place: Place)
    requires Accounted(owner, batch, a.contact, place) && a.token !in owner
    ensures Accounted(owner[a.token := place], batch + [a], a.contact, place)
  {
    var owner' := owner[a.token := place];
    var out := batch + [a];
    TokensConcat(batch, [a]);
    assert Tokens([a]) == {a.token} by { assert a in [a]; }
    assert forall x :: x in out <==> x in batch || x == a;
    forall i, j | 0 <= i < j < |out| ensures out[i].token != out[j].token {
      if j == |batch| {
        assert batch[i] in batch;
      }
    }
  }

  /** A whole list moves into a hand that already holds another. */
  lemma AccountedMoves(owner: map<nat, Place>, from: Place, to: Place, moved: Batch, kept: Batch, contact: string)
    requires Accounted(owner, moved, contact, from) && Accounted(owner, kept, contact, to) && from != to
    ensures Tokens(moved) <= owner.Keys
    ensures Accounted(Assign(owner, moved, to), kept + moved, contact, to)
    ensures Accounted(Assign(owner, moved, to), [], contact, from)
    ensures Assign(owner, moved, to).Keys == owner.Keys && |Assign(owner, moved, to)| == |owner|
    ensures forall token :: token in owner ==>
      Assign(owner, moved, to)[token] == if token in Tokens(moved) then to else owner[token]
    ensures forall token :: token in Tokens(moved) ==> owner[token] == from
  {
    AssignMoves(owner, moved, to);
    TokensConcat(kept, moved);
    forall token | token in Tokens(kept) ensures token !in Tokens(moved) {
    }
    DistinctConcat(kept, moved);
    assert forall x :: x in kept + moved <==> x in kept || x in moved;
  }

  /** Outside two places the two owner maps agree. */
  ghost predicate SameExcept(o: map<nat, Place>, o': map<nat, Place>, a: Place, b: Place) {
    && (forall token :: token in o && o[token] != a && o[token] != b ==> token in o' && o'[token] == o[token])
    && (forall token :: token in o' && o'[token] != a && o'[token] != b ==> token in o && o[token] == o'[token])
  }

  lemma AccountedElsewhere(o: map<nat, Place>, o': map<nat, Place>, a: Place, b: Place,
                           batch: Batch, contact: string, place: Place)
    requires Accounted(o, batch, contact, place) && SameExcept(o, o', a, b) && place != a && place != b
    ensures Accounted(o', batch, contact, place)
  {
  }

  lemma PendingFrame(w: World, t: World, a: Place, b: Place)
    requires PendingInv(w) && SameExcept(w.owner, t.owner, a, b)
    requires forall c {:trigger PendingAccounted(t, c)} :: InPending(c) != a && InPending(c) != b ==>
               Held(t.slots.pending, c) == Held(w.slots.pending, c)
    requires forall c {:trigger PendingAccounted(t, c)} :: InPending(c) == a || InPending(c) == b ==> PendingAccounted(t, c)
    ensures PendingInv(t)
  {
    forall c ensures PendingAccounted(t, c) {
      assert PendingAccounted(w, c);
      if InPending(c) != a && InPending(c) != b {
        AccountedElsewhere(w.owner, t.owner, a, b, Held(w.slots.pending, c), c, InPending(c));
      }
    }
  }

  lemma InjectedFrame(w: World, t: World, a: Place, b: Place)
    requires InjectedInv(w) && SameExcept(w.owner, t.owner, a, b)
    requires forall c {:trigger InjectedAccounted(t, c)} :: InInjected(c) != a && InInjected(c) != b ==>
               Held(t.slots.injected, c) == Held(w.slots.injected, c)
    requires forall c {:trigger InjectedAccounted(t, c)} :: InInjected(c) == a || InInjected(c) == b ==> InjectedAccounted(t, c)
    ensures InjectedInv(t)
  {
    forall c ensures InjectedAccounted(t, c) {
      assert InjectedAccounted(w, c);
      if InInjected(c) != a && InInjected(c) != b {
        AccountedElsewhere(w.owner, t.owner, a, b, Held(w.slots.injected, c), c, InInjected(c));
      }
    }
  }

  lemma HandsFrame(w: World, t: World, a: Place, b: Place)
    requires HandsInv(w) && SameExcept(w.owner, t.owner, a, b) && w.aborted == t.aborted
    requires !a.Leaked? && !b.Leaked?
    requires forall u :: u in t.threads && InHand(u) != a && InHand(u) != b ==>
               u in w.threads && t.threads[u].contact == w.threads[u].contact
               && Hands(t.threads[u].stage) == Hands(w.threads[u].stage)
    requires forall u :: u in t.threads && (InHand(u) == a || InHand(u) == b) ==> HandAccounted(t, u)
    requires forall u :: u in w.threads ==> u in t.threads
    requires a.InHand? ==> a.thread in t.threads
    requires b.InHand? ==> b.thread in t.threads
    ensures HandsInv(t)
  {
    forall u | u in t.threads ensures HandAccounted(t, u) {
      if InHand(u) != a && InHand(u) != b {
        HandFrame(w, t, a, b, u);
      }
    }
  }

  lemma HandFrame(w: World, t: World, a: Place, b: Place, u: nat)
    requires HandsInv(w) && SameExcept(w.owner, t.owner, a, b) && u in w.threads && u in t.threads
    requires InHand(u) != a && InHand(u) != b && t.threads[u].contact == w.threads[u].contact
    requires Hands(t.threads[u].stage) == Hands(w.threads[u].stage)
    ensures HandAccounted(t, u)
  {
    assert HandAccounted(w, u);
    AccountedElsewhere(w.owner, t.owner, a, b, Hands(w.threads[u].stage), w.threads[u].contact, InHand(u));
  }
}
