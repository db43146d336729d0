/** `ManagerDispatcher` with its own fields: every section that runs under the
    condition lock, tied to the functions the interleavings are built from. */
module ManagerDispatcherClass {
  import opened Common
  import opened DispatcherModel
  import opened DispatcherInvariant
  import opened DispatcherSettlement

  /** The normal batch being collected, put in front of batches still to come. */
  function Join(normal: Batch, batches: seq<Batch>): seq<Batch> {
    if normal == [] then batches
    else if batches != [] && batches[0] != [] && !batches[0][0].review then [normal + batches[0]] + batches[1..]
    else [normal] + batches
  }

  lemma JoinOne(a: Admission, rest: Batch)
    requires !a.review
    ensures Split([a] + rest) == Join([a], Split(rest))
  {
    assert ([a] + rest)[1..] == rest;
  }

  lemma JoinTwice(normal: Batch, a: Admission, tail: seq<Batch>)
    requires !a.review
    ensures Join(normal, Join([a], tail)) == Join(normal + [a], tail)
  {
    if normal == [] {
      assert normal + [a] == [a];
    } else if tail != [] && tail[0] != [] && !tail[0][0].review {
      var first: Batch := [a] + tail[0];
      assert first[0] == a;
      assert ([first] + tail[1..])[1..] == tail[1..];
      assert normal + first == (normal + [a]) + tail[0];
    } else {
      assert ([[a]] + tail)[1..] == tail;
    }
  }

  /** What the splitting loop makes of the batches done, the normal one being collected, and
      the admissions still to come. */
  function Collected(done: seq<Batch>, normal: Batch, rest: Batch): seq<Batch> {
    done + Join(normal, Split(rest))
  }

  /** One admission of the splitting loop. */
  lemma SplitStep(done: seq<Batch>, normal: Batch, a: Admission, rest: Batch)
    ensures !a.review ==> Collected(done, normal, [a] + rest) == Collected(done, normal + [a], rest)
    ensures a.review ==> Collected(done, normal, [a] + rest) == Collected(Closed(done, normal) + [[a]], [], rest)
  {
    assert ([a] + rest)[1..] == rest;
    if a.review {
      var tail: seq<Batch> := Split(rest);
      var both: seq<Batch> := [[a]] + tail;
      assert Split([a] + rest) == both;
      assert both[0] == [a] && both[0][0].review;
      if normal == [] {
        assert done + both == (done + [[a]]) + tail;
      } else {
        assert done + ([normal] + both) == ((done + [normal]) + [[a]]) + tail;
      }
    } else {
      JoinOne(a, rest);
      JoinTwice(normal, a, Split(rest));
    }
  }

  function Closed(done: seq<Batch>, normal: Batch): seq<Batch> {
    if normal == [] then done else done + [normal]
  }

  /** What the scheduling loop still makes of the admissions from position i on. */
  function Rest(s: Slots, admissions: Batch, offers: seq<bool>, i: nat, overflow: Batch): (Slots, Batch)
    requires i <= |admissions| == |offers|
  {
    var rest := Schedule(s, admissions[i..], offers[i..]);
    (rest.0, overflow + rest.1)
  }

  /** One admission of the scheduling loop. */
  lemma ScheduleStep(s: Slots, admissions: Batch, offers: seq<bool>, i: nat, overflow: Batch)
    requires i < |admissions| == |offers|
    ensures var one := ScheduleOne(s, admissions[i], offers[i]);
            var now := if one.1 == Overflowed then overflow + [admissions[i]] else overflow;
            Rest(s, admissions, offers, i, overflow) == Rest(one.0, admissions, offers, i + 1, now)
  {
    assert admissions[i..][1..] == admissions[i + 1..] && offers[i..][1..] == offers[i + 1..];
    assert admissions[i..][0] == admissions[i] && offers[i..][0] == offers[i];
    var later := Schedule(ScheduleOne(s, admissions[i], offers[i]).0, admissions[i + 1..], offers[i + 1..]).1;
    assert overflow + ([admissions[i]] + later) == (overflow + [admissions[i]]) + later;
    assert overflow + ([] + later) == overflow + later;
  }

  /** What opening a turn, or ending the thread, does to the dispatcher's fields. */
  function Popped(s: Slots, thread: nat): Slots
    requires thread in s.threads
  {
    var contact := s.threads[thread];
    if Held(s.pending, contact) != [] then s.(pending := s.pending - {contact})
    else
      s.(
      pending := s.pending - {contact},
      injected := s.injected - {contact},
      running := s.running - {contact},
      threads := s.threads - {thread})
  }

  /** In every reachable world this is exactly the step the interleavings take. */
  lemma PoppedIsThePopStep(w: World, t: nat)
    requires ThreadsInv(w) && CoveredInv(w) && t in w.threads && w.threads[t].stage.AtTop?
    ensures t in w.slots.threads && Popped(w.slots, t) == AfterPop(w, t).slots
  {
    var contact := w.threads[t].contact;
    SplitLosesNothing(Held(w.slots.pending, contact));
    if Held(w.slots.pending, contact) == [] {
      assert contact !in w.slots.pending;
      assert w.slots.pending - {contact} == w.slots.pending;
    }
  }

  class ManagerDispatcher {
    var pending: map<string, Batch>
    var injected: map<string, Batch>
    var running: set<string>
    var threads: map<nat, string>
    var claimed: nat
    var closed: bool
    var nextThread: nat
    const limit: nat

    function Snapshot(): Slots
      reads this
    {
      Slots(pending, injected, running, threads, claimed, limit, closed, nextThread)
    }

    constructor (maxActiveContacts: int)
      ensures Snapshot() == NoWork(if maxActiveContacts < 1 then 1 else maxActiveContacts)
    {
      pending, injected, running, threads := map[], map[], {}, map[];
      claimed, closed, nextThread := 0, false, 0;
      limit := if maxActiveContacts < 1 then 1 else maxActiveContacts;
    }

    /** The body of the scheduling loop. */
    method AssignLocked(admission: Admission, offer: bool) returns (verdict: Verdict)
      modifies this
      ensures Snapshot() == ScheduleOne(old(Snapshot()), admission, offer).0
      ensures verdict == ScheduleOne(old(Snapshot()), admission, offer).1
      ensures verdict.Overflowed? <==> old(claimed) >= limit || (admission.contact in old(running) && !offer)
      ensures verdict.Injected? <==> old(claimed) < limit && admission.contact in old(running) && offer
      ensures claimed == old(claimed) + (if verdict.Overflowed? then 0 else 1)
      ensures verdict.Overflowed? ==> Snapshot() == old(Snapshot())
      ensures verdict.Injected? ==>
        && injected == old(injected)[admission.contact := Held(old(injected), admission.contact) + [admission]]
        && pending == old(pending) && running == old(running) && threads == old(threads)
      ensures verdict.Started? ==>
        && pending == old(pending)[admission.contact := Held(old(pending), admission.contact) + [admission]]
        && running == old(running) + {admission.contact} && injected == old(injected)
        && threads == old(threads)[old(nextThread) := admission.contact] && nextThread == old(nextThread) + 1
    {
      if claimed >= limit {
        verdict := Overflowed;
      } else if admission.contact in running {
        claimed := claimed + 1;
        if offer {
          injected := injected[admission.contact := Held(injected, admission.contact) + [admission]];
          verdict := Injected;
        } else {
          claimed := claimed - 1;
          verdict := Overflowed;
        }
      } else {
        claimed := claimed + 1;
        pending := pending[admission.contact := Held(pending, admission.contact) + [admission]];
        running := running + {admission.contact};
        threads := threads[nextThread := admission.contact];
        nextThread := nextThread + 1;
        verdict := Started;
      }
    }

    /** Registers threads and returns them; starting them is left to the caller, after
        the lock is given back. */
    method ScheduleAdmissionsLocked(admissions: Batch, offers: seq<bool>)
      returns (raised: bool, started: seq<nat>, overflow: Batch)
      requires |offers| == |admissions|
      modifies this
      ensures raised == old(closed)
      ensures raised ==> Snapshot() == old(Snapshot()) && started == [] && overflow == []
      ensures !raised ==> Snapshot() == Schedule(old(Snapshot()), admissions, offers).0
      ensures !raised ==> overflow == Schedule(old(Snapshot()), admissions, offers).1
      ensures !raised ==> claimed + |overflow| == old(claimed) + |admissions|
      ensures nextThread == old(nextThread) + |started|
      ensures forall i :: 0 <= i < |started| ==> started[i] == old(nextThread) + i
    {
      started, overflow := [], [];
      if closed {
        return true, [], [];
      }
      raised := false;
      ghost var goal := Schedule(Snapshot(), admissions, offers);
      assert admissions[0..] == admissions && offers[0..] == offers && [] + goal.1 == goal.1;
      var i := 0;
      while i < |admissions|
        invariant 0 <= i <= |admissions|
        invariant claimed + |overflow| == old(claimed) + i
        invariant nextThread == old(nextThread) + |started|
        invariant forall j :: 0 <= j < |started| ==> started[j] == old(nextThread) + j
        invariant goal == Rest(Snapshot(), admissions, offers, i, overflow)
      {
        ScheduleStep(Snapshot(), admissions, offers, i, overflow);
        var verdict := AssignLocked(admissions[i], offers[i]);
        match verdict {
          case Started => started := started + [nextThread - 1];
          case Injected =>
          case Overflowed => overflow := overflow + [admissions[i]];
        }
        i := i + 1;
      }
      assert overflow + [] == overflow;
    }

    /** The locked section that opens a turn, or ends the thread. */
    method NextTurn(thread: nat) returns (admissions: Batch, stranded: Batch)
      requires thread in threads
      modifies this
      ensures admissions == Held(old(pending), old(threads)[thread])
      ensures stranded == if admissions == [] then Held(old(injected), old(threads)[thread]) else []
      ensures Snapshot() == Popped(old(Snapshot()), thread)
      ensures admissions != [] ==>
        Snapshot() == old(Snapshot()).(pending := old(pending) - {old(threads)[thread]})
      ensures admissions == [] ==>
        && injected == old(injected) - {old(threads)[thread]} && running == old(running) - {old(threads)[thread]}
        && threads == old(threads) - {thread} && claimed == old(claimed)
    {
      var contact := threads[thread];
      admissions := Held(pending, contact);
      stranded := [];
      SplitLosesNothing(admissions);
      pending := pending - {contact};
      if admissions == [] {
        stranded := Held(injected, contact);
        injected := injected - {contact};
        running := running - {contact};
        threads := threads - {thread};
      }
    }

    method TakeInjected(contact: string) returns (taken: Batch)
      modifies this`injected
      ensures taken == Held(old(injected), contact)
      ensures injected == old(injected) - {contact}
    {
      taken := Held(injected, contact);
      injected := injected - {contact};
    }

    method ReleaseClaimedRoots(count: int)
      modifies this`claimed
      ensures claimed == if count <= 0 then old(claimed) else if old(claimed) >= count then old(claimed) - count else 0
    {
      var released := if count < 0 then 0 else count;
      claimed := if claimed - released < 0 then 0 else claimed - released;
    }

    /** One attempt at a batch in `_run_contact`: `ran`, `completed` and `retried` say which of
        the runner, `complete_roots` and `retry_roots` return rather than raise.  What was
        injected is settled with the batch, once; a completed or retried batch gives its slots
        back; when the retry raises too, the contact is given up and the slots are not. */
    method RunBatch(thread: nat, contact: string, batch: Batch, ran: bool, completed: bool, retried: bool)
      returns (settled: Batch, outcome: Outcome)
      modifies this
      ensures settled == batch + Held(old(injected), contact)
      ensures outcome.Cleanly? <==> ran && completed
      ensures outcome.ToRetry? <==> !(ran && completed) && retried
      ensures outcome.Aborted? ==>
        Snapshot() == old(Snapshot()).(injected := old(injected) - {contact}, running := old(running) - {contact},
                                       threads := old(threads) - {thread})
      ensures !outcome.Aborted? ==>
        Snapshot() == old(Snapshot()).(injected := old(injected) - {contact},
                                       claimed := if old(claimed) < |settled| then 0 else old(claimed) - |settled|)
    {
      var taken := TakeInjected(contact);
      settled := batch + taken;
      var released := false;
      outcome := Aborted;
      if ran && completed {
        outcome, released := Cleanly, true;
      } else if retried {
        outcome, released := ToRetry, true;
      }
      if released {
        ReleaseClaimedRoots(|settled|);
      } else {
        running := running - {contact};
        threads := threads - {thread};
      }
    }

    method Shutdown()
      modifies this`closed
      ensures closed
    {
      closed := true;
    }

    /** The turns of one contact: each review alone, the roots between them together. */
    static method SplitBatches(admissions: Batch) returns (batches: seq<Batch>)
      ensures batches == Split(admissions)
      ensures Flatten(batches) == admissions
      ensures forall b, a :: b in batches && a in b && a.review ==> b == [a]
      ensures RunTogether(batches)
    {
      batches := CollectBatches(admissions);
      SplitLosesNothing(admissions);
      SplitRunsTogether(admissions);
    }

    /** The loop: a review closes the normal batch being collected. */
    static method CollectBatches(admissions: Batch) returns (batches: seq<Batch>)
      ensures batches == Split(admissions)
    {
      batches := [];
      var normal: Batch := [];
      var i := 0;
      ghost var goal := Split(admissions);
      assert admissions[0..] == admissions && [] + goal == goal;
      while i < |admissions|
        invariant 0 <= i <= |admissions|
        invariant Collected(batches, normal, admissions[i..]) == goal
      {
        var admission := admissions[i];
        assert admissions[i..] == [admission] + admissions[i + 1..];
        SplitStep(batches, normal, admission, admissions[i + 1..]);
        if admission.review {
          if normal != [] {
            batches := batches + [normal];
            normal := [];
          }
          batches := batches + [[admission]];
        } else {
          normal := normal + [admission];
        }
        i := i + 1;
      }
      assert admissions[i..] == [];
      if normal != [] {
        batches := batches + [normal];
      } else {
        assert batches + [] == batches;
      }
    }
  }
}
