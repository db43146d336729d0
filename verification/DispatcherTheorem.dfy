/** The remaining steps, and what holds in every interleaving of the dispatcher. */
module DispatcherTheorem {
  import opened Common
  import opened DispatcherModel
  import opened DispatcherInvariant
  import opened DispatcherSteps

  // ------------------------------------------------------- taking work in hand

  lemma SplitDistinct(a: Batch, b: Batch)
    requires DistinctTokens(a + b)
    ensures DistinctTokens(a) && DistinctTokens(b) && Tokens(a) !! Tokens(b)
  {
    assert forall i :: 0 <= i < |a| ==> (a + b)[i] == a[i];
    assert forall i :: 0 <= i < |b| ==> (a + b)[|a| + i] == b[i];
    forall x, y | x in a && y in b ensures x.token != y.token {
      var i :| 0 <= i < |a| && a[i] == x;
      var j :| 0 <= j < |b| && b[j] == y;
      assert (a + b)[i].token != (a + b)[|a| + j].token;
    }
  }

  lemma ReorderDistinct(a: Batch, b: Batch, c: Batch)
    requires DistinctTokens((a + b) + c)
    ensures DistinctTokens((a + c) + b)
    ensures Tokens((a + c) + b) == Tokens((a + b) + c)
  {
    TokensConcat(a + b, c);
    TokensConcat(a, b);
    TokensConcat(a + c, b);
    TokensConcat(a, c);
    SplitDistinct(a + b, c);
    SplitDistinct(a, b);
    DistinctConcat(a, c);
    DistinctConcat(a + c, b);
  }

  lemma AccountedReorder(owner: map<nat, Place>, a: Batch, b: Batch, c: Batch, contact: string, place: Place)
    requires Accounted(owner, (a + b) + c, contact, place)
    ensures Accounted(owner, (a + c) + b, contact, place)
  {
    ReorderDistinct(a, b, c);
    forall e | e in (a + c) + b ensures e in (a + b) + c {
    }
  }

  lemma MovedOwner(owner: map<nat, Place>, moved: Batch, from: Place, to: Place)
    requires Tokens(moved) <= owner.Keys && forall token :: token in Tokens(moved) ==> owner[token] == from
    ensures SameExcept(owner, Assign(owner, moved, to), from, to)
  {
    AssignMoves(owner, moved, to);
  }

  /** The pending roots of a contact become the hand of its thread. */
  ghost function Popped(w: World, t: nat, next: Stage): World
    requires t in w.threads
  {
    var contact := w.threads[t].contact;
    Moved(w.(
          slots := w.slots.(pending := w.slots.pending - {contact}),
          owner := Assign(w.owner, Held(w.slots.pending, contact), InHand(t))),
          t, next)
  }

  /** The injected roots of a contact join a hand; `next` is the stage after that. */
  ghost function Joined(w: World, t: nat, next: Stage): World
    requires t in w.threads
  {
    var contact := w.threads[t].contact;
    Moved(w.(
          slots := w.slots.(injected := w.slots.injected - {contact}),
          owner := Assign(w.owner, Held(w.slots.injected, contact), InHand(t))),
          t, next)
  }

  /** One contact's list is taken; the other contacts' lists stay. */
  lemma TakenList(m: map<string, Batch>, contact: string)
    ensures Held(m - {contact}, contact) == []
    ensures forall c :: c != contact ==> Held(m - {contact}, c) == Held(m, c)
  {
  }

  lemma TakenPending(w: World, out: World, c: string, t: nat)
    requires PendingInv(w) && SameExcept(w.owner, out.owner, InPending(c), InHand(t))
    requires Accounted(out.owner, [], c, InPending(c))
    requires out.slots.pending == w.slots.pending - {c}
    ensures PendingInv(out)
  {
    TakenList(w.slots.pending, c);
    assert PendingAccounted(out, c);
    PendingFrame(w, out, InPending(c), InHand(t));
  }

  lemma TakenInjected(w: World, out: World, c: string, t: nat)
    requires InjectedInv(w) && SameExcept(w.owner, out.owner, InInjected(c), InHand(t))
    requires Accounted(out.owner, [], c, InInjected(c))
    requires out.slots.injected == w.slots.injected - {c}
    ensures InjectedInv(out)
  {
    TakenList(w.slots.injected, c);
    assert InjectedAccounted(out, c);
    InjectedFrame(w, out, InInjected(c), InHand(t));
  }

  lemma GrownHand(w: World, out: World, from: Place, t: nat)
    requires HandsInv(w) && SameExcept(w.owner, out.owner, from, InHand(t)) && (from.InPending? || from.InInjected?)
    requires t in w.threads && out.threads.Keys == w.threads.Keys && out.aborted == w.aborted
    requires forall u :: u in w.threads && u != t ==> out.threads[u] == w.threads[u]
    requires Accounted(out.owner, Hands(out.threads[t].stage), out.threads[t].contact, InHand(t))
    ensures HandsInv(out)
  {
    assert HandAccounted(out, t);
    HandsFrame(w, out, from, InHand(t));
  }

  lemma PoppedKeepsPlaces(w: World, t: nat, next: Stage)
    requires PlacesInv(w) && CountInv(w) && t in w.threads && Hands(w.threads[t].stage) == []
    requires Hands(next) == Held(w.slots.pending, w.threads[t].contact)
    ensures PlacesInv(Popped(w, t, next)) && CountInv(Popped(w, t, next))
  {
    var c := w.threads[t].contact;
    var moved := Held(w.slots.pending, c);
    var from, to := InPending(c), InHand(t);
    var out := Popped(w, t, next);
    assert PendingAccounted(w, c) && HandAccounted(w, t);
    AccountedMoves(w.owner, from, to, moved, [], c);
    assert [] + moved == moved;
    MovedOwner(w.owner, moved, from, to);
    assert PendingInv(out) by { TakenPending(w, out, c, t); }
    assert InjectedInv(out) by { InjectedFrame(w, out, from, to); }
    assert HandsInv(out) by { GrownHand(w, out, from, t); }
  }

  lemma PopWorkIsPopped(w: World, t: nat) returns (next: Stage)
    requires t in w.threads && Held(w.slots.pending, w.threads[t].contact) != []
    ensures next.Running? && AfterPop(w, t) == Popped(w, t, next)
    ensures Hands(next) == Held(w.slots.pending, w.threads[t].contact)
  {
    var moved := Held(w.slots.pending, w.threads[t].contact);
    SplitLosesNothing(moved);
    next := Running(Split(moved)[0], Split(moved)[1..]);
  }

  lemma PoppedKeepsSettled(w: World, t: nat, next: Stage)
    requires SettledInv(w) && PendingInv(w) && t in w.threads
    requires SettledHands(next) == [] && SettledHands(w.threads[t].stage) == []
    ensures SettledInv(Popped(w, t, next))
  {
    assert PendingAccounted(w, w.threads[t].contact);
    TakenUpKeepsSettled(w, Popped(w, t, next), t, Held(w.slots.pending, w.threads[t].contact), next);
  }

  /** Admissions that wait for a turn are not settled, so taking them up settles none. */
  lemma TakenUpKeepsSettled(w: World, out: World, t: nat, moved: Batch, next: Stage)
    requires SettledInv(w) && t in w.threads && SettledHands(next) == [] && SettledHands(w.threads[t].stage) == []
    requires forall token :: token in Tokens(moved) ==> token in w.owner && !w.owner[token].InHand?
    requires out.owner == Assign(w.owner, moved, InHand(t)) && out.settled == w.settled
    requires out.threads == w.threads[t := w.threads[t].(stage := next)]
    ensures SettledInv(out)
  {
    AssignMoves(w.owner, moved, InHand(t));
    forall token | token in out.owner && token in out.settled
      ensures out.owner[token].InHand? && out.owner[token].thread in out.threads
      ensures token in Tokens(SettledHands(out.threads[out.owner[token].thread].stage))
    {
      assert token !in Tokens(moved);
      assert w.owner[token].thread != t;
    }
  }

  lemma PoppedKeepsCovered(w: World, t: nat, next: Stage)
    requires CoveredInv(w) && t in w.threads
    ensures CoveredInv(Popped(w, t, next))
  {
    var out := Popped(w, t, next);
    forall c | c in out.slots.pending ensures WaitsAtTop(out, c) {
      assert WaitsAtTop(w, c);
      var u :| u in w.slots.threads && u in w.threads && w.threads[u] == Thread(c, AtTop);
      assert out.threads[u] == Thread(c, AtTop);
    }
  }

  lemma PoppedKeepsThreads(w: World, t: nat, next: Stage)
    requires ThreadsInv(w) && t in w.threads && Live(next) == Live(w.threads[t].stage)
    ensures ThreadsInv(Popped(w, t, next))
  {
    MoveKeepsThreads(w, Popped(w, t, next), t);
  }

  lemma PopWorkKeepsInv(w: World, t: nat)
    requires WorldInv(w) && t in w.threads && w.threads[t].stage.AtTop?
    requires Held(w.slots.pending, w.threads[t].contact) != []
    ensures WorldInv(AfterPop(w, t))
  {
    var next := PopWorkIsPopped(w, t);
    PoppedKeepsInv(w, t, next);
  }

  lemma PoppedKeepsInv(w: World, t: nat, next: Stage)
    requires WorldInv(w) && t in w.threads && w.threads[t].stage.AtTop? && next.Running?
    requires Hands(next) == Held(w.slots.pending, w.threads[t].contact)
    ensures WorldInv(Popped(w, t, next))
  {
    PoppedKeepsOwners(w, t, next);
    PoppedKeepsRest(w, t, next);
  }

  lemma PoppedKeepsOwners(w: World, t: nat, next: Stage)
    requires PlacesInv(w) && CountInv(w) && SettledInv(w)
    requires t in w.threads && w.threads[t].stage.AtTop? && next.Running?
    requires Hands(next) == Held(w.slots.pending, w.threads[t].contact)
    ensures PlacesInv(Popped(w, t, next)) && CountInv(Popped(w, t, next)) && SettledInv(Popped(w, t, next))
  {
    assert PlacesInv(Popped(w, t, next)) && CountInv(Popped(w, t, next)) by { PoppedKeepsPlaces(w, t, next); }
    assert SettledInv(Popped(w, t, next)) by { PoppedKeepsSettled(w, t, next); }
  }

  lemma PoppedKeepsRest(w: World, t: nat, next: Stage)
    requires CoveredInv(w) && ThreadsInv(w) && t in w.threads && w.threads[t].stage.AtTop? && next.Running?
    ensures CoveredInv(Popped(w, t, next)) && ThreadsInv(Popped(w, t, next))
  {
    assert CoveredInv(Popped(w, t, next)) by { PoppedKeepsCovered(w, t, next); }
    assert ThreadsInv(Popped(w, t, next)) by { PoppedKeepsThreads(w, t, next); }
  }

  lemma JoinKeepsPlaces(w: World, t: nat, next: Stage)
    requires PlacesInv(w) && CountInv(w) && t in w.threads
    requires Accounted(Assign(w.owner, Held(w.slots.injected, w.threads[t].contact), InHand(t)),
                       Hands(next), w.threads[t].contact, InHand(t))
    ensures PlacesInv(Joined(w, t, next)) && CountInv(Joined(w, t, next))
  {
    var c := w.threads[t].contact;
    var moved := Held(w.slots.injected, c);
    var from, to := InInjected(c), InHand(t);
    var out := Joined(w, t, next);
    assert InjectedAccounted(w, c) && HandAccounted(w, t);
    AccountedMoves(w.owner, from, to, moved, Hands(w.threads[t].stage), c);
    MovedOwner(w.owner, moved, from, to);
    assert PendingInv(out) by { PendingFrame(w, out, from, to); }
    assert InjectedInv(out) by { TakenInjected(w, out, c, t); }
    assert HandsInv(out) by { GrownHand(w, out, from, t); }
  }

  lemma JoinKeepsSettled(w: World, t: nat, next: Stage)
    requires SettledInv(w) && InjectedInv(w) && t in w.threads
    requires SettledHands(next) == [] && SettledHands(w.threads[t].stage) == []
    ensures SettledInv(Joined(w, t, next))
  {
    assert InjectedAccounted(w, w.threads[t].contact);
    TakenUpKeepsSettled(w, Joined(w, t, next), t, Held(w.slots.injected, w.threads[t].contact), next);
  }

  lemma JoinKeepsRest(w: World, t: nat, next: Stage)
    requires ThreadsInv(w) && CoveredInv(w) && t in w.threads
    requires !w.threads[t].stage.AtTop? && Live(next) == Live(w.threads[t].stage)
    ensures ThreadsInv(Joined(w, t, next)) && CoveredInv(Joined(w, t, next))
  {
    MoveKeepsThreads(w, Joined(w, t, next), t);
    MoveKeepsCovered(w, Joined(w, t, next), t);
  }

  lemma TakenHand(w: World, t: nat, taken: Batch)
    requires t in w.threads && w.threads[t].stage.Finished? && taken == Held(w.slots.injected, w.threads[t].contact)
    requires InjectedInv(w) && HandsInv(w)
    ensures Accounted(Assign(w.owner, taken, InHand(t)),
                      (w.threads[t].stage.batch + taken) + Flatten(w.threads[t].stage.rest),
                      w.threads[t].contact, InHand(t))
  {
    var c, stage := w.threads[t].contact, w.threads[t].stage;
    assert InjectedAccounted(w, c) && HandAccounted(w, t);
    AccountedMoves(w.owner, InInjected(c), InHand(t), taken, Hands(stage), c);
    AccountedReorder(Assign(w.owner, taken, InHand(t)), stage.batch, Flatten(stage.rest), taken, c, InHand(t));
  }

  lemma TakeInjectedIsJoined(w: World, t: nat) returns (next: Stage)
    requires Enabled(w, TakeInjected(t))
    ensures Step(w, TakeInjected(t)) == Joined(w, t, next)
    ensures next.Settling?
    ensures Hands(next) ==
      (w.threads[t].stage.batch + Held(w.slots.injected, w.threads[t].contact)) + Flatten(w.threads[t].stage.rest)
  {
    var stage := w.threads[t].stage;
    next := Settling(stage.batch + Held(w.slots.injected, w.threads[t].contact), stage.rest, stage.ok);
  }

  lemma TakeKeepsPlaces(w: World, t: nat, next: Stage)
    requires PlacesInv(w) && CountInv(w) && t in w.threads && w.threads[t].stage.Finished?
    requires Hands(next) ==
      (w.threads[t].stage.batch + Held(w.slots.injected, w.threads[t].contact)) + Flatten(w.threads[t].stage.rest)
    ensures PlacesInv(Joined(w, t, next)) && CountInv(Joined(w, t, next))
  {
    TakenHand(w, t, Held(w.slots.injected, w.threads[t].contact));
    JoinKeepsPlaces(w, t, next);
  }

  lemma TakeInjectedKeepsInv(w: World, t: nat)
    requires WorldInv(w) && Enabled(w, TakeInjected(t))
    ensures WorldInv(Step(w, TakeInjected(t)))
  {
    var next := TakeInjectedIsJoined(w, t);
    TakenKeepsInv(w, t, next);
  }

  lemma TakenKeepsInv(w: World, t: nat, next: Stage)
    requires WorldInv(w) && t in w.threads && w.threads[t].stage.Finished? && next.Settling?
    requires Hands(next) ==
      (w.threads[t].stage.batch + Held(w.slots.injected, w.threads[t].contact)) + Flatten(w.threads[t].stage.rest)
    ensures WorldInv(Joined(w, t, next))
  {
    TakenKeepsOwners(w, t, next);
    JoinKeepsRest(w, t, next);
  }

  lemma TakenKeepsOwners(w: World, t: nat, next: Stage)
    requires PlacesInv(w) && CountInv(w) && SettledInv(w)
    requires t in w.threads && w.threads[t].stage.Finished? && next.Settling?
    requires Hands(next) ==
      (w.threads[t].stage.batch + Held(w.slots.injected, w.threads[t].contact)) + Flatten(w.threads[t].stage.rest)
    ensures PlacesInv(Joined(w, t, next)) && CountInv(Joined(w, t, next)) && SettledInv(Joined(w, t, next))
  {
    assert PlacesInv(Joined(w, t, next)) && CountInv(Joined(w, t, next)) by { TakeKeepsPlaces(w, t, next); }
    assert SettledInv(Joined(w, t, next)) by { JoinKeepsSettled(w, t, next); }
  }

  lemma StrandedHand(w: World, t: nat, stranded: Batch)
    requires InjectedInv(w) && HandsInv(w) && t in w.threads && w.threads[t].stage.AtTop?
    requires stranded == Held(w.slots.injected, w.threads[t].contact)
    ensures Accounted(Assign(w.owner, stranded, InHand(t)), stranded, w.threads[t].contact, InHand(t))
  {
    var c := w.threads[t].contact;
    assert InjectedAccounted(w, c) && HandAccounted(w, t);
    AccountedMoves(w.owner, InInjected(c), InHand(t), stranded, [], c);
    assert [] + stranded == stranded;
  }

  lemma PopExitKeepsPlaces(w: World, t: nat, joined: World, next: Stage)
    requires PlacesInv(w) && CountInv(w) && SettledInv(w) && t in w.threads && w.threads[t].stage.AtTop?
    requires Hands(next) == Held(w.slots.injected, w.threads[t].contact) && SettledHands(next) == []
    requires joined == Joined(w, t, next)
    ensures PlacesInv(joined) && CountInv(joined) && SettledInv(joined)
  {
    assert PlacesInv(joined) && CountInv(joined) by {
      StrandedHand(w, t, Held(w.slots.injected, w.threads[t].contact));
      JoinKeepsPlaces(w, t, next);
    }
    assert SettledInv(joined) by { JoinKeepsSettled(w, t, next); }
  }

  /** Leaving `_running` and `_threads`. */
  function Left(w: World, contact: string, t: nat): World {
    w.(slots := w.slots.(running := w.slots.running - {contact}, threads := w.slots.threads - {t}))
  }

  lemma PopExitIsJoined(w: World, t: nat) returns (next: Stage)
    requires t in w.threads && Held(w.slots.pending, w.threads[t].contact) == []
    ensures Hands(next) == Held(w.slots.injected, w.threads[t].contact) && SettledHands(next) == []
    ensures AfterPop(w, t) == Left(Joined(w, t, next), w.threads[t].contact, t)
  {
    var stranded := Held(w.slots.injected, w.threads[t].contact);
    next := if stranded == [] then LastReplay else Stranded(stranded);
  }

  lemma LeftKeepsOthers(w: World, contact: string, t: nat)
    requires PlacesInv(w) && CountInv(w) && SettledInv(w)
    ensures PlacesInv(Left(w, contact, t)) && CountInv(Left(w, contact, t)) && SettledInv(Left(w, contact, t))
  {
    LeaveKeepsPlaces(w, Left(w, contact, t));
    LeaveKeepsSettled(w, Left(w, contact, t));
  }

  /** Leaving `_running`: the thread keeps whatever was injected after its last turn. */
  lemma PopExitKeepsInv(w: World, t: nat)
    requires WorldInv(w) && t in w.threads && w.threads[t].stage.AtTop?
    requires Held(w.slots.pending, w.threads[t].contact) == []
    ensures WorldInv(AfterPop(w, t))
  {
    var next := PopExitIsJoined(w, t);
    var out := Left(Joined(w, t, next), w.threads[t].contact, t);
    assert PlacesInv(out) && CountInv(out) && SettledInv(out) by {
      PopExitKeepsPlaces(w, t, Joined(w, t, next), next);
      LeftKeepsOthers(Joined(w, t, next), w.threads[t].contact, t);
    }
    assert ThreadsInv(out) && CoveredInv(out) by { PopExitKeepsRest(w, t, AfterPop(w, t)); }
  }

  lemma PopExitKeepsRest(w: World, t: nat, out: World)
    requires ThreadsInv(w) && CoveredInv(w) && t in w.threads && w.threads[t].stage.AtTop?
    requires Held(w.slots.pending, w.threads[t].contact) == [] && out == AfterPop(w, t)
    ensures ThreadsInv(out) && CoveredInv(out)
  {
    LeaveKeepsThreads(w, out, t);
    LeaveKeepsCovered(w, out, t);
  }

  lemma LeaveKeepsSettled(w: World, out: World)
    requires SettledInv(w) && out.owner == w.owner && out.threads == w.threads && out.settled == w.settled
    ensures SettledInv(out)
  {
  }

  lemma LeaveKeepsPlaces(w: World, out: World)
    requires PlacesInv(w) && CountInv(w)
    requires out.owner == w.owner && out.threads == w.threads && out.aborted == w.aborted
    requires out.slots.pending == w.slots.pending && out.slots.injected == w.slots.injected
    requires out.slots.claimed == w.slots.claimed && out.slots.limit == w.slots.limit
    ensures PlacesInv(out) && CountInv(out)
  {
    SamePendingInv(w, out);
    SameInjectedInv(w, out);
    forall u | u in out.threads ensures HandAccounted(out, u) {
      assert HandAccounted(w, u);
    }
  }

  lemma LeaveKeepsThreads(w: World, out: World, t: nat)
    requires ThreadsInv(w) && t in w.threads && Live(w.threads[t].stage)
    requires forall u :: u in w.threads && u != t ==> u in out.threads && out.threads[u] == w.threads[u]
    requires forall u :: u in out.threads ==> u in w.threads
    requires t in out.threads ==> !Live(out.threads[t].stage)
    requires out.slots.threads == w.slots.threads - {t}
    requires out.slots.running == w.slots.running - {w.threads[t].contact}
    requires out.slots.nextThread == w.slots.nextThread
    ensures ThreadsInv(out)
  {
    forall c | c in out.slots.running ensures exists u :: u in out.slots.threads && out.slots.threads[u] == c {
      var u :| u in w.slots.threads && w.slots.threads[u] == c;
      assert u != t;
      assert out.slots.threads[u] == c;
    }
  }

  lemma LeaveKeepsCovered(w: World, out: World, t: nat)
    requires ThreadsInv(w) && CoveredInv(w) && t in w.threads && w.threads[t].stage.AtTop?
    requires w.threads[t].contact !in w.slots.pending
    requires forall u :: u in w.threads && u != t ==> u in out.threads && out.threads[u] == w.threads[u]
    requires out.slots.threads == w.slots.threads - {t}
    requires out.slots.running == w.slots.running - {w.threads[t].contact}
    requires out.slots.pending == w.slots.pending && out.aborted == w.aborted
    requires out.slots.injected == w.slots.injected - {w.threads[t].contact}
    ensures CoveredInv(out)
  {
    forall c | c in out.slots.pending ensures WaitsAtTop(out, c) {
      assert WaitsAtTop(w, c);
      var u :| u in w.slots.threads && u in w.threads && w.threads[u] == Thread(c, AtTop);
      assert out.threads[u] == Thread(c, AtTop);
    }
  }

  // ------------------------------------------------------------------ settling

  lemma SettleKeepsInv(w: World, t: nat, settled: Batch, next: Stage, how: Settlement)
    requires WorldInv(w) && t in w.threads && !w.threads[t].stage.AtTop?
    requires SettledHands(w.threads[t].stage) == [] && SettledHands(next) == settled
    requires Hands(next) == Hands(w.threads[t].stage) && Live(next) == Live(w.threads[t].stage)
    ensures WorldInv(Moved(w.(settled := Record(w.settled, settled, how)), t, next))
  {
    var recorded := w.(settled := Record(w.settled, settled, how));
    var out := Moved(recorded, t, next);
    assert PlacesInv(out) && CountInv(out) by {
      PlacesIgnoreSettled(w, recorded.settled);
      MoveKeepsPlaces(recorded, t, next);
    }
    assert ThreadsInv(out) by { MoveKeepsThreads(w, out, t); }
    assert CoveredInv(out) by { MoveKeepsCovered(w, out, t); }
    assert HandAccounted(w, t);
    assert SettledInv(out) by { RecordKeepsSettled(w, t, settled, next, how); }
  }

  lemma RecordKeepsSettled(w: World, t: nat, settled: Batch, next: Stage, how: Settlement)
    requires SettledInv(w) && t in w.threads && HandAccounted(w, t)
    requires SettledHands(w.threads[t].stage) == [] && SettledHands(next) == settled
    requires Hands(next) == Hands(w.threads[t].stage)
    ensures SettledInv(Moved(w.(settled := Record(w.settled, settled, how)), t, next))
  {
    var out := Moved(w.(settled := Record(w.settled, settled, how)), t, next);
    forall a | a in settled ensures a in Hands(next) && a.token in Tokens(settled) {
      HandsHoldSettled(next, a);
    }
    forall token | token in out.owner && token in out.settled
      ensures out.owner[token].InHand? && out.owner[token].thread in out.threads
      ensures token in Tokens(SettledHands(out.threads[out.owner[token].thread].stage))
    {
      if token in Tokens(settled) {
        var a :| a in settled && a.token == token;
        assert a in Hands(w.threads[t].stage);
      }
    }
  }

  lemma HandsHoldSettled(stage: Stage, a: Admission)
    requires a in SettledHands(stage)
    ensures a in Hands(stage)
  {
  }

  // ----------------------------------------------------------------- releasing

  lemma DropOwner(owner: map<nat, Place>, gone: Batch, place: Place)
    requires DistinctTokens(gone) && Tokens(gone) <= owner.Keys
    requires forall token :: token in Tokens(gone) ==> owner[token] == place
    ensures SameExcept(owner, owner - Tokens(gone), place, place)
    ensures |owner - Tokens(gone)| == |owner| - |gone|
  {
    TokensCount(gone);
    CardinalityOf(owner);
    CardinalityOf(owner - Tokens(gone));
    assert (owner - Tokens(gone)).Keys == owner.Keys - Tokens(gone);
  }

  lemma AccountedShrinks(owner: map<nat, Place>, gone: Batch, kept: Batch, contact: string, place: Place)
    requires Accounted(owner, gone + kept, contact, place)
    ensures Accounted(owner - Tokens(gone), kept, contact, place)
    ensures DistinctTokens(gone) && Tokens(gone) <= owner.Keys
    ensures forall token :: token in Tokens(gone) ==> owner[token] == place
  {
    SplitDistinct(gone, kept);
    TokensConcat(gone, kept);
    assert forall x :: x in gone + kept <==> x in gone || x in kept;
  }

  lemma ReleaseKeepsPlaces(w: World, t: nat, gone: Batch, next: Stage)
    requires PlacesInv(w) && CountInv(w) && t in w.threads
    requires Hands(w.threads[t].stage) == gone + Hands(next)
    ensures PlacesInv(AfterRelease(w, t, gone, next)) && CountInv(AfterRelease(w, t, gone, next))
    ensures |gone| <= w.slots.claimed
  {
    var place := InHand(t);
    var out := AfterRelease(w, t, gone, next);
    assert HandAccounted(w, t);
    AccountedShrinks(w.owner, gone, Hands(next), w.threads[t].contact, place);
    DropOwner(w.owner, gone, place);
    assert PendingInv(out) by { PendingFrame(w, out, place, place); }
    assert InjectedInv(out) by { InjectedFrame(w, out, place, place); }
    assert HandsInv(out) by {
      assert HandAccounted(out, t);
      HandsFrame(w, out, place, place);
    }
  }

  lemma ReleaseKeepsSettled(w: World, t: nat, next: Stage)
    requires SettledInv(w) && t in w.threads && SettledHands(next) == []
    ensures SettledInv(AfterRelease(w, t, SettledHands(w.threads[t].stage), next))
  {
  }

  lemma ReleaseKeepsInv(w: World, t: nat, next: Stage)
    requires WorldInv(w) && t in w.threads && !w.threads[t].stage.AtTop?
    requires SettledHands(next) == [] && Live(next) == Live(w.threads[t].stage)
    requires Hands(w.threads[t].stage) == SettledHands(w.threads[t].stage) + Hands(next)
    ensures WorldInv(AfterRelease(w, t, SettledHands(w.threads[t].stage), next))
    ensures |SettledHands(w.threads[t].stage)| <= w.slots.claimed
  {
    var out := AfterRelease(w, t, SettledHands(w.threads[t].stage), next);
    ReleaseKeepsPlaces(w, t, SettledHands(w.threads[t].stage), next);
    ReleaseKeepsSettled(w, t, next);
    MoveKeepsThreads(w, out, t);
    MoveKeepsCovered(w, out, t);
  }

  // ------------------------------------------------------------------- leaving

  lemma DeathKeepsPlaces(w: World, t: nat)
    requires PlacesInv(w) && CountInv(w) && t in w.threads
    ensures PlacesInv(AfterDeath(w, t)) && CountInv(AfterDeath(w, t))
  {
    var out := AfterDeath(w, t);
    var lost := Hands(w.threads[t].stage);
    var from := InHand(t);
    assert HandAccounted(w, t);
    AssignMoves(w.owner, lost, Leaked);
    MovedOwner(w.owner, lost, from, Leaked);
    assert PendingInv(out) by { PendingFrame(w, out, from, Leaked); }
    assert InjectedInv(out) by { InjectedFrame(w, out, from, Leaked); }
    forall u | u in out.threads ensures HandAccounted(out, u) {
      assert HandAccounted(w, u);
      AccountedElsewhere(w.owner, out.owner, from, Leaked, Hands(w.threads[u].stage), w.threads[u].contact, InHand(u));
    }
  }

  lemma DeathKeepsSettled(w: World, t: nat)
    requires SettledInv(w) && HandsInv(w) && t in w.threads && SettledHands(w.threads[t].stage) == []
    ensures SettledInv(AfterDeath(w, t))
  {
    var out := AfterDeath(w, t);
    var lost := Hands(w.threads[t].stage);
    assert HandAccounted(w, t);
    AssignMoves(w.owner, lost, Leaked);
    forall token | token in out.owner && token in out.settled
      ensures out.owner[token].InHand? && out.owner[token].thread in out.threads
      ensures token in Tokens(SettledHands(out.threads[out.owner[token].thread].stage))
    {
      assert w.owner[token].thread != t;
      assert token !in Tokens(lost);
    }
  }

  lemma DeathKeepsThreads(w: World, t: nat)
    requires ThreadsInv(w) && t in w.threads
    ensures ThreadsInv(AfterDeath(w, t))
  {
    var out := AfterDeath(w, t);
    if Live(w.threads[t].stage) {
      LeaveKeepsThreads(w, out, t);
    } else {
      GoneKeepsThreads(w, out, t);
    }
  }

  lemma DeathKeepsCovered(w: World, t: nat)
    requires CoveredInv(w) && t in w.threads && !w.threads[t].stage.AtTop?
    ensures CoveredInv(AfterDeath(w, t))
  {
    GoneKeepsCovered(w, AfterDeath(w, t), t);
  }

  lemma DeathKeepsInv(w: World, t: nat)
    requires WorldInv(w) && t in w.threads && !w.threads[t].stage.AtTop? && SettledHands(w.threads[t].stage) == []
    ensures WorldInv(AfterDeath(w, t))
  {
    assert PlacesInv(AfterDeath(w, t)) && CountInv(AfterDeath(w, t)) by { DeathKeepsPlaces(w, t); }
    assert SettledInv(AfterDeath(w, t)) by { DeathKeepsSettled(w, t); }
    assert ThreadsInv(AfterDeath(w, t)) by { DeathKeepsThreads(w, t); }
    assert CoveredInv(AfterDeath(w, t)) by { DeathKeepsCovered(w, t); }
  }

  /** A thread that had left `_running` already goes away. */
  lemma GoneKeepsThreads(w: World, out: World, t: nat)
    requires ThreadsInv(w) && t in w.threads && !Live(w.threads[t].stage)
    requires out.threads == w.threads - {t} && out.slots.threads == w.slots.threads
    requires out.slots.running == w.slots.running && out.slots.nextThread == w.slots.nextThread
    ensures ThreadsInv(out)
  {
    forall c | c in out.slots.running ensures exists u :: u in out.slots.threads && out.slots.threads[u] == c {
      var u :| u in w.slots.threads && w.slots.threads[u] == c;
      assert out.slots.threads[u] == c;
    }
  }

  lemma ExitKeepsHands(w: World, t: nat)
    requires HandsInv(w) && Enabled(w, Exit(t))
    ensures HandsInv(Step(w, Exit(t)))
  {
    var out := Step(w, Exit(t));
    EmptyHand(w, t);
    forall u | u in out.threads ensures HandAccounted(out, u) {
      assert HandAccounted(w, u);
      assert out.threads[u] == w.threads[u];
    }
  }

  lemma EmptyHand(w: World, t: nat)
    requires HandsInv(w) && t in w.threads && Hands(w.threads[t].stage) == []
    ensures forall token :: token in w.owner ==> w.owner[token] != InHand(t)
  {
    assert HandAccounted(w, t);
  }

  lemma ExitKeepsPlaces(w: World, t: nat)
    requires PlacesInv(w) && Enabled(w, Exit(t))
    ensures PlacesInv(Step(w, Exit(t)))
  {
    assert PendingInv(Step(w, Exit(t))) by { SamePendingInv(w, Step(w, Exit(t))); }
    assert InjectedInv(Step(w, Exit(t))) by { SameInjectedInv(w, Step(w, Exit(t))); }
    assert HandsInv(Step(w, Exit(t))) by { ExitKeepsHands(w, t); }
  }

  lemma GoneKeepsCovered(w: World, out: World, t: nat)
    requires CoveredInv(w) && t in w.threads && !w.threads[t].stage.AtTop?
    requires forall u :: u in w.threads && u != t ==> u in out.threads && out.threads[u] == w.threads[u]
    requires forall u :: u in w.slots.threads && u != t ==> u in out.slots.threads
    requires out.slots.pending == w.slots.pending && out.slots.injected == w.slots.injected
    requires out.aborted || out.slots.running == w.slots.running
    requires w.aborted ==> out.aborted
    ensures CoveredInv(out)
  {
    forall c | c in out.slots.pending ensures WaitsAtTop(out, c) {
      assert WaitsAtTop(w, c);
      var u :| u in w.slots.threads && u in w.threads && w.threads[u] == Thread(c, AtTop);
      assert out.threads[u] == Thread(c, AtTop);
    }
  }

  lemma ExitKeepsSettled(w: World, t: nat)
    requires SettledInv(w) && Enabled(w, Exit(t))
    ensures SettledInv(Step(w, Exit(t)))
  {
  }

  lemma ExitKeepsInv(w: World, t: nat)
    requires WorldInv(w) && Enabled(w, Exit(t))
    ensures WorldInv(Step(w, Exit(t)))
  {
    ExitKeepsPlaces(w, t);
    GoneKeepsThreads(w, Step(w, Exit(t)), t);
    ExitKeepsSettled(w, t);
    GoneKeepsCovered(w, Step(w, Exit(t)), t);
  }

  lemma ShutdownKeepsInv(w: World)
    requires WorldInv(w)
    ensures WorldInv(Step(w, Shutdown))
  {
    var out := Step(w, Shutdown);
    LeaveKeepsPlaces(w, out);
    SameThreads(w, out);
    assert CoveredInv(out) by { assert CoveredInv(w); }
    assert SettledInv(out) by { assert SettledInv(w); }
  }

  /** No conservation depends on which threads were started yet, or by whom. */
  lemma CallsFrame(w: World, out: World)
    requires WorldInv(w) && out == w.(calls := out.calls, unstarted := out.unstarted)
    ensures WorldInv(out)
  {
    LeaveKeepsPlaces(w, out);
    SameThreads(w, out);
    assert CoveredInv(out) by { assert CoveredInv(w); }
    assert SettledInv(out) by { assert SettledInv(w); }
  }

  // ------------------------------------------------------------------ theorems

  lemma ScheduleKeepsInv(w: World, e: Event)
    requires WorldInv(w) && Enabled(w, e)
    requires e.Submit? || e.DeferRaises? || e.Replay? || CallOnly(e)
    ensures WorldInv(Step(w, e))
  {
    if e.Submit? {
      ScheduledKeepsInv(w, e.k, e.a, e.offer);
    } else if e.DeferRaises? {
      HandBackKeepsInv(w, e.a, Lapsed);
      CallsFrame(w.(settled := w.settled[e.a.token := Lapsed]), Step(w, e));
    } else if e.Replay? {
      AllScheduledKeepsInv(w, e.k, e.admissions, e.offers);
      CallsFrame(WithAllScheduled(w, e.k, e.admissions, e.offers), Step(w, e));
    } else {
      CallsFrame(w, Step(w, e));
    }
  }

  /** Opening, closing or abandoning a call, or starting a thread it registered. */
  predicate CallOnly(e: Event) {
    e.OpenSubmit? || e.SubmitRaises? || e.CloseSubmit? || e.Start?
  }

  lemma TurnKeepsInv(w: World, t: nat, e: Event)
    requires WorldInv(w) && (e.Pop? || e.TakeInjected? || e.Exit?) && e.t == t && Enabled(w, e)
    ensures WorldInv(Step(w, e))
  {
    match e
    case Pop(_) =>
      if Held(w.slots.pending, w.threads[t].contact) != [] {
        PopWorkKeepsInv(w, t);
      } else {
        PopExitKeepsInv(w, t);
      }
    case TakeInjected(_) => TakeInjectedKeepsInv(w, t);
    case Exit(_) => ExitKeepsInv(w, t);
  }

  lemma ReturnKeepsInv(w: World, t: nat, ok: bool)
    requires WorldInv(w) && Enabled(w, RunnerReturns(t, ok))
    ensures WorldInv(Step(w, RunnerReturns(t, ok)))
  {
    MoveKeepsInv(w, t, Finished(w.threads[t].stage.batch, w.threads[t].stage.rest, ok));
  }

  lemma CompleteRaisesKeepsInv(w: World, t: nat)
    requires WorldInv(w) && Enabled(w, CompleteRaises(t))
    ensures WorldInv(Step(w, CompleteRaises(t)))
  {
    MoveKeepsInv(w, t, Settling(w.threads[t].stage.settled, w.threads[t].stage.rest, false));
  }

  lemma ReplayDoneKeepsInv(w: World, t: nat)
    requires WorldInv(w) && Enabled(w, ReplayDone(t))
    ensures WorldInv(Step(w, ReplayDone(t)))
  {
    var rest := w.threads[t].stage.rest;
    MoveKeepsInv(w, t, if rest == [] then AtTop else Running(rest[0], rest[1..]));
  }

  lemma SettlementKeepsInv(w: World, t: nat, e: Event)
    requires WorldInv(w) && (e.Settle? || e.CompleteStranded?) && e.t == t && Enabled(w, e)
    ensures WorldInv(Step(w, e))
  {
    var stage := w.threads[t].stage;
    if e.Settle? {
      SettleKeepsInv(w, t, stage.settled, Releasing(stage.settled, stage.rest), if stage.ok then Completed else Retried);
    } else {
      SettleKeepsInv(w, t, stage.settled, StrandedReleasing(stage.settled), Completed);
    }
  }

  lemma ReleaseStepKeepsInv(w: World, t: nat)
    requires WorldInv(w) && Enabled(w, Release(t))
    ensures WorldInv(Step(w, Release(t)))
  {
    ReleaseKeepsInv(w, t, Replaying(w.threads[t].stage.rest));
  }

  lemma StrandedReleaseKeepsInv(w: World, t: nat)
    requires WorldInv(w) && Enabled(w, ReleaseStranded(t))
    ensures WorldInv(Step(w, ReleaseStranded(t)))
  {
    var settled := w.threads[t].stage.settled;
    assert settled + [] == settled;
    ReleaseKeepsInv(w, t, LastReplay);
  }

  lemma MoveStepKeepsInv(w: World, e: Event)
    requires WorldInv(w) && Enabled(w, e) && (e.RunnerReturns? || e.CompleteRaises? || e.ReplayDone?)
    ensures WorldInv(Step(w, e))
  {
    match e
    case RunnerReturns(t, ok) => ReturnKeepsInv(w, t, ok);
    case CompleteRaises(t) => CompleteRaisesKeepsInv(w, t);
    case ReplayDone(t) => ReplayDoneKeepsInv(w, t);
  }

  lemma SettleStepKeepsInv(w: World, e: Event)
    requires WorldInv(w) && (e.Settle? || e.CompleteStranded? || e.Release? || e.ReleaseStranded?) && Enabled(w, e)
    ensures WorldInv(Step(w, e))
  {
    match e
    case Settle(t) => SettlementKeepsInv(w, t, e);
    case CompleteStranded(t) => SettlementKeepsInv(w, t, e);
    case Release(t) => ReleaseStepKeepsInv(w, t);
    case ReleaseStranded(t) => StrandedReleaseKeepsInv(w, t);
  }

  lemma DeathStepKeepsInv(w: World, e: Event)
    requires WorldInv(w) && Enabled(w, e) && (e.RetryRaises? || e.ReplayRaises? || e.StrandedRaises?)
    ensures WorldInv(Step(w, e))
  {
    DeathKeepsInv(w, e.t);
    assert Step(w, e) == AfterDeath(w, e.t);
  }

  lemma StepKeepsInv(w: World, e: Event)
    requires WorldInv(w) && Enabled(w, e)
    ensures WorldInv(Step(w, e))
  {
    if e.Pop? || e.TakeInjected? || e.Exit? {
      TurnKeepsInv(w, e.t, e);
    } else if e.RetryRaises? || e.ReplayRaises? || e.StrandedRaises? {
      DeathStepKeepsInv(w, e);
    } else if e.Settle? || e.CompleteStranded? || e.Release? || e.ReleaseStranded? {
      SettleStepKeepsInv(w, e);
    } else if e.RunnerReturns? || e.CompleteRaises? || e.ReplayDone? {
      MoveStepKeepsInv(w, e);
    } else if e.Shutdown? {
      ShutdownKeepsInv(w);
    } else {
      ScheduleKeepsInv(w, e);
    }
  }
}
