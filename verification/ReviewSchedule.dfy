/** The recurring accuracy reviews of a long task (`core/long_task_updates.py`): one
    pending review at a time, covering the checkpoints that fell due since the last. */
module ReviewSchedule {
  import opened Common

  const ACCURACY_REVIEW_SEGMENTS := 20.0
  const ACCURACY_REVIEW_CLAIM_SECONDS := 60.0
  const EPSILON := 0.000000001

  /** `_stable_id` over the generation and the covered range. */
  datatype ReviewId = ReviewId(generation: nat, first: nat, last: nat)

  datatype Phase = Prepared | Claimed | Dispatched

  datatype Review = Review(id: ReviewId, phase: Phase, owner: nat, pid: nat, until: real, createdAt: real)

  datatype Schedule = Schedule(
    task: string,
    goal: real,
    interval: real,
    anchor: real,
    next: nat,
    generation: nat,
    pending: Option<Review>,
    refreshAttempts: nat)

  /** A completed review, with the schedule it was prepared under. */
  datatype Done = Done(id: ReviewId, createdAt: real, anchor: real, interval: real)

  datatype Lifecycle = Lifecycle(schedule: Option<Schedule>, terminal: bool, closed: bool, nextGeneration: nat, done: seq<Done>)

  /** What refreshing the accepted task shows. */
  datatype Snapshot = Missing | Finished | NoEstimate | Withdrawn | Estimate(goal: real)

  datatype Event =
    | SetGoal(task: string, goal: real, anchor: real)
    | Withdraw(task: string)
    | Prepare(generation: nat, snapshot: Snapshot, now: real)
    | Claim(owner: nat, pid: nat, now: real, alive: bool)
    | MarkDispatched(id: ReviewId)
    | Complete(id: ReviewId)
    | Terminate
    | Close

  function Magnitude(x: real): real {
    if x < 0.0 then -x else x
  }

  predicate MateriallyChanged(previous: real, current: real) {
    if previous <= 0.0 || current <= 0.0 then (previous > 0.0) != (current > 0.0)
    else Magnitude(current - previous) >= Max(1.0, previous * 0.01)
  }

  /** `_set_accuracy_goal_locked`: a new goal starts a new generation. */
  function WithGoal(l: Lifecycle, task: string, goal: real, anchor: real): Lifecycle {
    if task == "" || goal <= 0.0 then l
    else if l.schedule.Some? && l.schedule.value.task == task && !MateriallyChanged(l.schedule.value.goal, goal) then l
    else
      l.(schedule := Some(Schedule(task, goal, goal / ACCURACY_REVIEW_SEGMENTS, anchor, 1, l.nextGeneration, None, 0)),
         nextGeneration := l.nextGeneration + 1)
  }

  /** The last checkpoint reached, forgiving a rounding error of the clock. */
  function CheckpointReached(anchor: real, interval: real, now: real): int
    requires interval > 0.0
  {
    (Max(0.0, now - anchor) / interval + EPSILON).Floor
  }

  /** A review becomes the pending one. */
  function WithReview(l: Lifecycle, review: Review): Lifecycle
    requires l.schedule.Some?
  {
    l.(schedule := Some(l.schedule.value.(pending := Some(review), refreshAttempts := 0)))
  }

  /** The locked second half of `_prepare_accuracy_review_if_due`, after the refresh;
      `generation` is the one seen before it. */
  function AfterPrepare(l: Lifecycle, generation: nat, snapshot: Snapshot, now: real): Lifecycle {
    if l.schedule.None? || l.schedule.value.generation != generation || l.schedule.value.pending.Some? then l
    else
      var s := l.schedule.value;
      if snapshot.Finished? then
        if l.closed then l else l.(terminal := true, schedule := None)
      else if l.terminal then l
      else if snapshot.Missing? then l.(schedule := Some(s.(refreshAttempts := s.refreshAttempts + 1)))
      else if snapshot.Withdrawn? then l.(schedule := None)
      else if snapshot.Estimate? && snapshot.goal > 0.0 && MateriallyChanged(s.goal, snapshot.goal) then
        WithGoal(l, s.task, snapshot.goal, now)
      else if s.interval <= 0.0 then l.(schedule := None)
      else
        var last := CheckpointReached(s.anchor, s.interval, now);
        if last < s.next then l
        else WithReview(l, Review(ReviewId(s.generation, s.next, last), Prepared, 0, 0, 0.0, now))
  }

  /** `claim_accuracy_review`: a review no live process holds is leased. */
  function AfterClaim(l: Lifecycle, owner: nat, pid: nat, now: real, alive: bool): (Lifecycle, Option<ReviewId>) {
    if l.closed || l.terminal || l.schedule.None? || l.schedule.value.pending.None? then (l, None)
    else
      var p := l.schedule.value.pending.value;
      if p.phase.Dispatched? || (p.phase.Claimed? && p.until > now && alive) then (l, None)
      else
        (l.(schedule := Some(l.schedule.value.(
         pending := Some(p.(phase := Claimed, owner := owner, pid := pid, until := now + ACCURACY_REVIEW_CLAIM_SECONDS))))),
         Some(p.id))
  }

  predicate IsPending(l: Lifecycle, id: ReviewId) {
    l.schedule.Some? && l.schedule.value.pending.Some? && l.schedule.value.pending.value.id == id
  }

  function AfterDispatch(l: Lifecycle, id: ReviewId): Lifecycle {
    if !IsPending(l, id) then l
    else
      var s := l.schedule.value;
      l.(schedule := Some(s.(pending := Some(s.pending.value.(phase := Dispatched, until := 0.0)))))
  }

  function AfterComplete(l: Lifecycle, id: ReviewId): Lifecycle {
    if !IsPending(l, id) then l
    else
      var s := l.schedule.value;
      l.(schedule := Some(s.(next := if s.next > id.last + 1 then s.next else id.last + 1, pending := None)),
         done := l.done + [Done(id, s.pending.value.createdAt, s.anchor, s.interval)])
  }

  function Step(l: Lifecycle, e: Event): Lifecycle {
    match e
    case SetGoal(task, goal, anchor) => WithGoal(l, task, goal, anchor)
    case Withdraw(task) => if l.schedule.Some? && l.schedule.value.task == task then l.(schedule := None) else l
    case Prepare(generation, snapshot, now) => AfterPrepare(l, generation, snapshot, now)
    case Claim(owner, pid, now, alive) => AfterClaim(l, owner, pid, now, alive).0
    case MarkDispatched(id) => AfterDispatch(l, id)
    case Complete(id) => AfterComplete(l, id)
    case Terminate => l.(terminal := true, schedule := None)
    case Close => l.(closed := true)
  }

  function Run(l: Lifecycle, events: seq<Event>): Lifecycle
    decreases |events|
  {
    if events == [] then l else Run(Step(l, events[0]), events[1..])
  }

  const FRESH := Lifecycle(None, false, false, 0, [])

  // ------------------------------------------------------------------ invariant

  /** The first checkpoint of a generation that no completed review covers. */
  function NextAfter(done: seq<Done>, generation: nat): nat {
    if done == [] then 1
    else if done[|done| - 1].id.generation == generation then done[|done| - 1].id.last + 1
    else NextAfter(done[..|done| - 1], generation)
  }

  /** Each completed review begins where its generation's previous one ended. */
  ghost predicate Tiled(done: seq<Done>) {
    forall i :: 0 <= i < |done| ==>
      done[i].id.first == NextAfter(done[..i], done[i].id.generation) && done[i].id.first <= done[i].id.last
  }

  /** That many intervals. */
  function Intervals(count: nat, interval: real): real {
    if count == 0 then 0.0 else Intervals(count - 1, interval) + interval
  }

  lemma {:induction false} IntervalsMultiply(count: nat, interval: real)
    ensures Intervals(count, interval) == (count as real) * interval
  {
    if count > 0 {
      IntervalsMultiply(count - 1, interval);
      assert (count as real) * interval == ((count - 1) as real) * interval + interval;
    }
  }

  /** No covered checkpoint lay in the future when the review was prepared. */
  predicate Due(id: ReviewId, createdAt: real, anchor: real, interval: real) {
    interval > 0.0 && anchor + Intervals(id.last, interval) <= createdAt + EPSILON * interval
  }

  ghost predicate Inv(l: Lifecycle) {
    && Tiled(l.done)
    && (forall d :: d in l.done ==> d.id.generation < l.nextGeneration && Due(d.id, d.createdAt, d.anchor, d.interval))
    && (l.schedule.Some? ==>
          var s := l.schedule.value;
          && s.generation < l.nextGeneration && s.next == NextAfter(l.done, s.generation)
          && (s.pending.Some? ==>
                && s.pending.value.id.generation == s.generation && s.pending.value.id.first == s.next
                && s.next <= s.pending.value.id.last
                && Due(s.pending.value.id, s.pending.value.createdAt, s.anchor, s.interval)))
  }

  lemma {:induction false} UnseenGeneration(done: seq<Done>, generation: nat)
    requires forall d :: d in done ==> d.id.generation != generation
    ensures NextAfter(done, generation) == 1
  {
    if done != [] {
      assert done[|done| - 1] in done;
      UnseenGeneration(done[..|done| - 1], generation);
    }
  }

  lemma ReachedIsDue(anchor: real, interval: real, now: real)
    requires interval > 0.0 && CheckpointReached(anchor, interval, now) >= 1
    ensures anchor + Intervals(CheckpointReached(anchor, interval, now), interval) <= now + EPSILON * interval
  {
    var last := CheckpointReached(anchor, interval, now);
    var elapsed := Max(0.0, now - anchor);
    var ratio := elapsed / interval;
    assert ratio * interval == elapsed;
    assert last as real <= ratio + EPSILON;
    Scale(last as real, ratio + EPSILON, interval);
    assert (ratio + EPSILON) * interval == ratio * interval + EPSILON * interval;
    assert elapsed == 0.0 ==> ratio == 0.0;
    IntervalsMultiply(last, interval);
  }

  lemma Scale(a: real, b: real, factor: real)
    requires a <= b && factor > 0.0
    ensures a * factor <= b * factor
  {
  }

  lemma GoalKeepsInv(l: Lifecycle, task: string, goal: real, anchor: real)
    requires Inv(l)
    ensures Inv(WithGoal(l, task, goal, anchor))
  {
    UnseenGeneration(l.done, l.nextGeneration);
  }

  /** A review of due checkpoints may become the pending one. */
  lemma WithReviewKeepsInv(l: Lifecycle, review: Review)
    requires Inv(l) && l.schedule.Some?
    requires var s := l.schedule.value;
             && review.id.generation == s.generation && review.id.first == s.next <= review.id.last
             && Due(review.id, review.createdAt, s.anchor, s.interval)
    ensures Inv(WithReview(l, review))
  {
  }

  lemma ReviewKeepsInv(l: Lifecycle, now: real, last: int)
    requires Inv(l) && l.schedule.Some? && l.schedule.value.interval > 0.0
    requires last == CheckpointReached(l.schedule.value.anchor, l.schedule.value.interval, now)
    requires last >= l.schedule.value.next
    ensures Inv(WithReview(l, Review(ReviewId(l.schedule.value.generation, l.schedule.value.next, last),
                                     Prepared, 0, 0, 0.0, now)))
  {
    var s := l.schedule.value;
    var review := Review(ReviewId(s.generation, s.next, last), Prepared, 0, 0, 0.0, now);
    assert Due(review.id, now, s.anchor, s.interval) by {
      NextIsPositive(l.done, s.generation);
      ReachedIsDue(s.anchor, s.interval, now);
    }
    WithReviewKeepsInv(l, review);
  }

  lemma DroppedKeepsInv(l: Lifecycle, terminal: bool)
    requires Inv(l)
    ensures Inv(l.(terminal := terminal, schedule := None))
  {
  }

  lemma PrepareKeepsInv(l: Lifecycle, generation: nat, snapshot: Snapshot, now: real)
    requires Inv(l)
    ensures Inv(AfterPrepare(l, generation, snapshot, now))
  {
    if l.schedule.None? || l.schedule.value.generation != generation || l.schedule.value.pending.Some? {
    } else {
      var s := l.schedule.value;
      if snapshot.Finished? {
        DroppedKeepsInv(l, true);
      } else if l.terminal || snapshot.Missing? {
      } else if snapshot.Estimate? && snapshot.goal > 0.0 && MateriallyChanged(s.goal, snapshot.goal) {
        GoalKeepsInv(l, s.task, snapshot.goal, now);
      } else if snapshot.Withdrawn? || s.interval <= 0.0 {
        DroppedKeepsInv(l, l.terminal);
      } else {
        var last := CheckpointReached(s.anchor, s.interval, now);
        if last >= s.next {
          ReviewKeepsInv(l, now, last);
        }
      }
    }
  }

  lemma {:induction false} NextIsPositive(done: seq<Done>, generation: nat)
    ensures NextAfter(done, generation) >= 1
  {
    if done != [] {
      NextIsPositive(done[..|done| - 1], generation);
    }
  }

  lemma AppendKeepsTiled(done: seq<Done>, d: Done)
    requires Tiled(done) && d.id.first == NextAfter(done, d.id.generation) && d.id.first <= d.id.last
    ensures Tiled(done + [d]) && NextAfter(done + [d], d.id.generation) == d.id.last + 1
  {
    var out := done + [d];
    assert out[..|done|] == done;
    forall i | 0 <= i < |out|
      ensures out[i].id.first == NextAfter(out[..i], out[i].id.generation) && out[i].id.first <= out[i].id.last
    {
      if i < |done| {
        assert out[..i] == done[..i];
      }
    }
  }

  lemma CompleteKeepsInv(l: Lifecycle, id: ReviewId)
    requires Inv(l)
    ensures Inv(AfterComplete(l, id))
  {
    if IsPending(l, id) {
      var s := l.schedule.value;
      var d := Done(id, s.pending.value.createdAt, s.anchor, s.interval);
      AppendKeepsTiled(l.done, d);
      assert forall x :: x in l.done + [d] <==> x in l.done || x == d;
    }
  }

  lemma StepKeepsInv(l: Lifecycle, e: Event)
    requires Inv(l)
    ensures Inv(Step(l, e))
  {
    match e
    case SetGoal(task, goal, anchor) => GoalKeepsInv(l, task, goal, anchor);
    case Prepare(generation, snapshot, now) => PrepareKeepsInv(l, generation, snapshot, now);
    case Complete(id) => CompleteKeepsInv(l, id);
    case _ =>
  }

  lemma {:induction false} RunKeepsInv(l: Lifecycle, events: seq<Event>)
    requires Inv(l)
    ensures Inv(Run(l, events))
    decreases |events|
  {
    if events != [] {
      StepKeepsInv(l, events[0]);
      RunKeepsInv(Step(l, events[0]), events[1..]);
    }
  }

  // ------------------------------------------------------------------- theorems

  /** How many completed reviews of a generation cover a checkpoint. */
  function Coverings(done: seq<Done>, generation: nat, checkpoint: nat): nat {
    if done == [] then 0
    else
      var id := done[|done| - 1].id;
      Coverings(done[..|done| - 1], generation, checkpoint)
      + (if id.generation == generation && id.first <= checkpoint <= id.last then 1 else 0)
  }

  lemma {:induction false} TiledCoverings(done: seq<Done>, generation: nat, checkpoint: nat)
    requires Tiled(done)
    ensures Coverings(done, generation, checkpoint) ==
      if 1 <= checkpoint < NextAfter(done, generation) then 1 else 0
  {
    if done != [] {
      var n := |done| - 1;
      assert Tiled(done[..n]) by {
        assert forall i :: 0 <= i < n ==> done[..n][i] == done[i] && done[..n][..i] == done[..i];
      }
      TiledCoverings(done[..n], generation, checkpoint);
      assert done[n].id.first == NextAfter(done[..n], done[n].id.generation);
      NextIsPositive(done[..n], done[n].id.generation);
    }
  }

  /** In every run, the completed reviews of a generation cover its checkpoints up to
      some point exactly once each, and nothing beyond. */
  lemma ReviewsTile(events: seq<Event>, generation: nat, checkpoint: nat)
    ensures var l := Run(FRESH, events);
            && Coverings(l.done, generation, checkpoint) ==
               (if 1 <= checkpoint < NextAfter(l.done, generation) then 1 else 0)
            && (l.schedule.Some? ==> l.schedule.value.next == NextAfter(l.done, l.schedule.value.generation))
            && (l.schedule.Some? && l.schedule.value.pending.Some? ==>
                  l.schedule.value.pending.value.id.first == NextAfter(l.done, l.schedule.value.generation))
  {
    RunKeepsInv(FRESH, events);
    TiledCoverings(Run(FRESH, events).done, generation, checkpoint);
  }

  /** No review, pending or completed, covers a checkpoint that was not yet due. */
  lemma NothingReviewedEarly(events: seq<Event>)
    ensures var l := Run(FRESH, events);
            && (forall d :: d in l.done ==> Due(d.id, d.createdAt, d.anchor, d.interval))
            && (l.schedule.Some? && l.schedule.value.pending.Some? ==>
                  Due(l.schedule.value.pending.value.id, l.schedule.value.pending.value.createdAt,
                      l.schedule.value.anchor, l.schedule.value.interval))
  {
    RunKeepsInv(FRESH, events);
  }

  lemma CompletionNeedsPending(l: Lifecycle, id: ReviewId)
    ensures AfterComplete(l, id) != l <==> IsPending(l, id)
  {
    assert IsPending(l, id) ==> |AfterComplete(l, id).done| == |l.done| + 1;
  }

  lemma DoneIsNotPending(l: Lifecycle, id: ReviewId, i: nat)
    requires Inv(l) && i < |l.done| && l.done[i].id == id
    ensures !IsPending(l, id)
  {
    CompletedBehind(l.done, i);
    assert l.done[i].id.first <= l.done[i].id.last;
  }

  lemma StaleIsNotPending(l: Lifecycle, id: ReviewId)
    requires Inv(l)
    ensures (exists d :: d in l.done && d.id == id) ==> !IsPending(l, id)
    ensures l.schedule.Some? && id.generation != l.schedule.value.generation ==> !IsPending(l, id)
  {
    if exists d :: d in l.done && d.id == id {
      var d :| d in l.done && d.id == id;
      var i :| 0 <= i < |l.done| && l.done[i] == d;
      DoneIsNotPending(l, id, i);
    }
  }

  /** Completing an id advances the schedule exactly when that id is pending now; an id
      of an older generation, or one completed before, changes nothing. */
  lemma StaleReviewsChangeNothing(events: seq<Event>, id: ReviewId)
    ensures var l := Run(FRESH, events);
            && (Step(l, Complete(id)) != l <==> IsPending(l, id))
            && ((exists d :: d in l.done && d.id == id) ==> !IsPending(l, id))
            && (l.schedule.Some? && id.generation != l.schedule.value.generation ==> !IsPending(l, id))
  {
    RunKeepsInv(FRESH, events);
    CompletionNeedsPending(Run(FRESH, events), id);
    StaleIsNotPending(Run(FRESH, events), id);
  }

  lemma {:induction false} CompletedBehind(done: seq<Done>, i: nat)
    requires Tiled(done) && i < |done|
    ensures done[i].id.last < NextAfter(done, done[i].id.generation)
    decreases |done|
  {
    var n := |done| - 1;
    if i < n {
      assert Tiled(done[..n]) by {
        assert forall j :: 0 <= j < n ==> done[..n][j] == done[j] && done[..n][..j] == done[..j];
      }
      CompletedBehind(done[..n], i);
    }
  }

  lemma StepGeneration(l: Lifecycle, e: Event)
    ensures l.nextGeneration <= Step(l, e).nextGeneration
    ensures Step(l, e).schedule.Some? ==>
      || (l.schedule.Some? && Step(l, e).schedule.value.generation == l.schedule.value.generation)
      || Step(l, e).schedule.value.generation >= l.nextGeneration
  {
  }

  /** Generations never repeat: one superseded stays superseded. */
  lemma {:induction false} GenerationsAdvance(l: Lifecycle, events: seq<Event>)
    ensures l.nextGeneration <= Run(l, events).nextGeneration
    ensures Run(l, events).schedule.Some? ==>
      || (l.schedule.Some? && Run(l, events).schedule.value.generation == l.schedule.value.generation)
      || Run(l, events).schedule.value.generation >= l.nextGeneration
    decreases |events|
  {
    if events != [] {
      StepGeneration(l, events[0]);
      GenerationsAdvance(Step(l, events[0]), events[1..]);
    }
  }

  // ------------------------------------------------------- what each step promises

  /** A goal appeared, went away, or moved by a second and by a hundredth of itself. */
  predicate Differs(before: real, after: real) {
    if before > 0.0 && after > 0.0 then
      var moved := if after > before then after - before else before - after;
      moved >= 1.0 && moved * 100.0 >= before
    else (before > 0.0) != (after > 0.0)
  }

  lemma DiffersMeans(before: real, after: real)
    ensures MateriallyChanged(before, after) <==> Differs(before, after)
  {
  }

  /** A goal for a task is taken up when there is one and it is another task's or differs; it
      starts over from the anchor, in a generation of its own. */
  predicate GoalTaken(l: Lifecycle, t: Lifecycle, changed: bool, task: string, goal: real, anchor: real) {
    && (changed <==>
        && task != "" && goal > 0.0
        && (l.schedule.None? || l.schedule.value.task != task || Differs(l.schedule.value.goal, goal)))
    && (!changed ==> t == l)
    && (changed ==>
          && t == l.(schedule := t.schedule, nextGeneration := l.nextGeneration + 1) && t.schedule.Some?
          && var s := t.schedule.value;
          && s.task == task && s.goal == goal && s.interval * 20.0 == goal && s.anchor == anchor
          && s.next == 1 && s.generation == l.nextGeneration && s.pending == None && s.refreshAttempts == 0)
  }

  lemma GoalTakes(l: Lifecycle, task: string, goal: real, anchor: real)
    ensures var t := WithGoal(l, task, goal, anchor); GoalTaken(l, t, t != l, task, goal, anchor)
  {
    if l.schedule.Some? && goal > 0.0 {
      DiffersMeans(l.schedule.value.goal, goal);
    }
  }

  /** The n-th checkpoint has come, give or take the clock's rounding. */
  predicate HasCome(anchor: real, interval: real, now: real, n: nat) {
    anchor + (n as real) * interval <= now + EPSILON * interval
  }

  lemma ReachedExactly(anchor: real, interval: real, now: real, n: nat)
    requires interval > 0.0 && n >= 1
    ensures CheckpointReached(anchor, interval, now) >= n <==> HasCome(anchor, interval, now, n)
  {
    var elapsed := Max(0.0, now - anchor);
    var ratio := elapsed / interval;
    assert ratio * interval == elapsed;
    assert CheckpointReached(anchor, interval, now) >= n <==> ratio + EPSILON >= n as real;
    TimesInterval(ratio + EPSILON, n as real, interval);
    assert (ratio + EPSILON) * interval == elapsed + EPSILON * interval;
    if now < anchor {
      TimesInterval(n as real, 1.0, interval);
      TimesInterval(1.0, EPSILON, interval);
      assert EPSILON * interval < interval;
    }
  }

  lemma TimesInterval(a: real, b: real, interval: real)
    requires interval > 0.0
    ensures a >= b <==> a * interval >= b * interval
  {
    assert (a - b) * interval == a * interval - b * interval;
  }

  /** The schedule is still the one looked at, waits for its next checkpoint, and nothing
      about the task speaks against a review of the accepted goal. */
  predicate StillWaiting(l: Lifecycle, generation: nat, snapshot: Snapshot) {
    && l.schedule.Some? && l.schedule.value.generation == generation && l.schedule.value.pending == None
    && l.schedule.value.interval > 0.0 && !l.terminal
    && (snapshot.NoEstimate?
        || (snapshot.Estimate? && (snapshot.goal <= 0.0 || !Differs(l.schedule.value.goal, snapshot.goal))))
  }

  /** A review is prepared exactly when the next checkpoint has come; it covers all that have
      come and none that has not. */
  predicate ReviewPrepared(l: Lifecycle, t: Lifecycle, prepared: bool, generation: nat, snapshot: Snapshot, now: real) {
    && (prepared <==>
        && StillWaiting(l, generation, snapshot)
        && HasCome(l.schedule.value.anchor, l.schedule.value.interval, now, l.schedule.value.next))
    && (prepared ==>
          && t.schedule.Some? && t.schedule.value.pending.Some?
          && var s, r := l.schedule.value, t.schedule.value.pending.value;
          && t == l.(schedule := Some(s.(pending := Some(r), refreshAttempts := 0)))
          && r.id.generation == s.generation && r.id.first == s.next && r.phase == Prepared && r.createdAt == now
          && HasCome(s.anchor, s.interval, now, r.id.last) && !HasCome(s.anchor, s.interval, now, r.id.last + 1))
  }

  /** What looking at the task does when no review comes of it: a finished task ends the
      schedule and the lifecycle, one that was withdrawn or has no interval the schedule, a
      missing answer is counted, and another goal is taken up. */
  predicate LookedAt(l: Lifecycle, t: Lifecycle, generation: nat, snapshot: Snapshot, now: real) {
    if l.schedule.None? || l.schedule.value.generation != generation || l.schedule.value.pending.Some? then t == l
    else
      var s := l.schedule.value;
      match snapshot
      case Finished => if l.closed then t == l else t == l.(terminal := true, schedule := None)
      case Missing => t == if l.terminal then l else l.(schedule := Some(s.(refreshAttempts := s.refreshAttempts + 1)))
      case Withdrawn => t == if l.terminal then l else l.(schedule := None)
      case _ =>
        if l.terminal then t == l
        else if snapshot.Estimate? && snapshot.goal > 0.0 && Differs(s.goal, snapshot.goal) then
          GoalTaken(l, t, t != l, s.task, snapshot.goal, now)
        else t == if s.interval > 0.0 then l else l.(schedule := None)
  }

  lemma PrepareMeans(l: Lifecycle, generation: nat, snapshot: Snapshot, now: real)
    requires l.schedule.Some? ==> l.schedule.value.next >= 1
    ensures var t := AfterPrepare(l, generation, snapshot, now);
            var prepared := t.schedule.Some? && t.schedule.value.pending.Some?
                            && !(l.schedule.Some? && l.schedule.value.pending.Some?);
            && ReviewPrepared(l, t, prepared, generation, snapshot, now)
            && (!prepared ==> LookedAt(l, t, generation, snapshot, now))
  {
    if l.schedule.Some? && l.schedule.value.interval > 0.0 {
      var s := l.schedule.value;
      ReachedExactly(s.anchor, s.interval, now, s.next);
      var last := CheckpointReached(s.anchor, s.interval, now);
      if last >= s.next {
        ReachedExactly(s.anchor, s.interval, now, last);
        ReachedExactly(s.anchor, s.interval, now, last + 1);
      }
    }
    if l.schedule.Some? && snapshot.Estimate? && snapshot.goal > 0.0 {
      DiffersMeans(l.schedule.value.goal, snapshot.goal);
      GoalTakes(l, l.schedule.value.task, snapshot.goal, now);
    }
  }

  lemma PrepareIsMeant(l: Lifecycle, generation: nat, snapshot: Snapshot, now: real)
    requires Inv(l)
    ensures var t := AfterPrepare(l, generation, snapshot, now);
            var prepared := t.schedule.Some? && t.schedule.value.pending.Some?
                            && !(l.schedule.Some? && l.schedule.value.pending.Some?);
            && ReviewPrepared(l, t, prepared, generation, snapshot, now)
            && (!prepared ==> LookedAt(l, t, generation, snapshot, now))
  {
    if l.schedule.Some? {
      NextIsPositive(l.done, l.schedule.value.generation);
    }
    PrepareMeans(l, generation, snapshot, now);
  }

  /** A pending review is leased for a minute unless it was dispatched or a live process
      holds it. */
  predicate ReviewClaimed(l: Lifecycle, t: Lifecycle, claimed: Option<ReviewId>, owner: nat, pid: nat, now: real,
                          alive: bool) {
    && (claimed.Some? <==>
        && !l.closed && !l.terminal && l.schedule.Some? && l.schedule.value.pending.Some?
        && var p := l.schedule.value.pending.value;
        p.phase == Prepared || (p.phase == Claimed && (p.until <= now || !alive)))
    && (claimed.None? ==> t == l)
    && (claimed.Some? ==>
          var s, p := l.schedule.value, l.schedule.value.pending.value;
          && claimed.value == p.id
          && t == l.(schedule := Some(s.(pending := Some(p.(phase := Claimed, owner := owner, pid := pid,
                                                            until := now + 60.0))))))
  }

  /** The review is the pending one. */
  predicate Awaited(l: Lifecycle, id: ReviewId) {
    l.schedule.Some? && l.schedule.value.pending.Some? && l.schedule.value.pending.value.id == id
  }

  predicate ReviewDispatched(l: Lifecycle, t: Lifecycle, marked: bool, id: ReviewId) {
    && (marked <==> Awaited(l, id))
    && (!marked ==> t == l)
    && (marked ==>
          var s, p := l.schedule.value, l.schedule.value.pending.value;
          t == l.(schedule := Some(s.(pending := Some(p.(phase := Dispatched, until := 0.0))))))
  }

  /** Completing the pending review moves the schedule past what it covered. */
  predicate ReviewCompleted(l: Lifecycle, t: Lifecycle, completed: bool, id: ReviewId) {
    && (completed <==> Awaited(l, id))
    && (!completed ==> t == l)
    && (completed ==>
          var s, p := l.schedule.value, l.schedule.value.pending.value;
          && t.done == l.done + [Done(id, p.createdAt, s.anchor, s.interval)]
          && t == l.(schedule := t.schedule, done := t.done)
          && t.schedule == Some(s.(pending := None, next := if s.next > id.last then s.next else id.last + 1)))
  }

  lemma ReviewGoesThrough(l: Lifecycle, now: real, owner: nat, pid: nat) returns (events: seq<Event>)
    requires Inv(l) && l.schedule.Some? && StillWaiting(l, l.schedule.value.generation, NoEstimate) && !l.closed
    requires HasCome(l.schedule.value.anchor, l.schedule.value.interval, now, l.schedule.value.next)
    ensures var t := Run(l, events);
            && t.schedule.Some? && t.schedule.value.generation == l.schedule.value.generation
            && t.schedule.value.anchor == l.schedule.value.anchor && t.schedule.value.interval == l.schedule.value.interval
            && t.schedule.value.pending == None && t.schedule.value.next >= 1
            && !HasCome(t.schedule.value.anchor, t.schedule.value.interval, now, t.schedule.value.next)
    ensures |events| == 4 && events[0] == Prepare(l.schedule.value.generation, NoEstimate, now)
    ensures events[1] == Claim(owner, pid, now, true) && events[2].MarkDispatched? && events[3].Complete?
  {
    NextIsPositive(l.done, l.schedule.value.generation);
    PrepareMeans(l, l.schedule.value.generation, NoEstimate, now);
    var l1 := Step(l, Prepare(l.schedule.value.generation, NoEstimate, now));
    var id := l1.schedule.value.pending.value.id;
    var l2 := Step(l1, Claim(owner, pid, now, true));
    var l3 := Step(l2, MarkDispatched(id));
    var l4 := Step(l3, Complete(id));
    RunFour(l, Prepare(l.schedule.value.generation, NoEstimate, now), Claim(owner, pid, now, true), MarkDispatched(id),
            Complete(id));
    events := [Prepare(l.schedule.value.generation, NoEstimate, now), Claim(owner, pid, now, true), MarkDispatched(id),
               Complete(id)];
  }

  lemma RunFour(l: Lifecycle, a: Event, b: Event, c: Event, d: Event)
    ensures Run(l, [a, b, c, d]) == Step(Step(Step(Step(l, a), b), c), d)
  {
    assert [a, b, c, d][1..] == [b, c, d] && [b, c, d][1..] == [c, d] && [c, d][1..] == [d] && [d][1..] == [];
    assert Run(l, [a, b, c, d]) == Run(Step(l, a), [b, c, d]);
    assert Run(Step(l, a), [b, c, d]) == Run(Step(Step(l, a), b), [c, d]);
    var m := Step(Step(l, a), b);
    assert Run(m, [c, d]) == Run(Step(m, c), [d]);
    assert Run(Step(m, c), [d]) == Run(Step(Step(m, c), d), []);
  }

  lemma {:induction false} RunJoined(l: Lifecycle, a: seq<Event>, b: seq<Event>)
    ensures Run(l, a + b) == Run(Run(l, a), b)
    decreases |a|
  {
    if a == [] {
      assert a + b == b;
    } else {
      assert (a + b)[1..] == a[1..] + b;
      RunJoined(Step(l, a[0]), a[1..], b);
    }
  }

  /** No checkpoint stays unreviewed: in any reachable lifecycle that is still running, with no
      review under way, the checkpoints that have come are covered by one review prepared,
      claimed, dispatched and completed now. */
  lemma WhatHasComeIsReviewed(events: seq<Event>, now: real, owner: nat, pid: nat, checkpoint: nat)
    returns (more: seq<Event>)
    requires var l := Run(FRESH, events);
             && l.schedule.Some? && StillWaiting(l, l.schedule.value.generation, NoEstimate) && !l.closed
             && checkpoint >= l.schedule.value.next && HasCome(l.schedule.value.anchor, l.schedule.value.interval, now, checkpoint)
    ensures |more| == 4 && more[1] == Claim(owner, pid, now, true) && more[3].Complete?
    ensures var l := Run(FRESH, events);
            Coverings(Run(l, more).done, l.schedule.value.generation, checkpoint) == 1
  {
    var l := Run(FRESH, events);
    RunKeepsInv(FRESH, events);
    var s := l.schedule.value;
    NextIsPositive(l.done, s.generation);
    EarlierHasCome(s.anchor, s.interval, now, s.next, checkpoint);
    more := ReviewGoesThrough(l, now, owner, pid);
    RunJoined(FRESH, events, more);
    var t := Run(l, more);
    if t.schedule.value.next <= checkpoint {
      EarlierHasCome(s.anchor, s.interval, now, t.schedule.value.next, checkpoint);
    }
    ReviewsTile(events + more, s.generation, checkpoint);
  }

  lemma EarlierHasCome(anchor: real, interval: real, now: real, n: nat, m: nat)
    requires interval > 0.0 && n <= m && HasCome(anchor, interval, now, m)
    ensures HasCome(anchor, interval, now, n)
  {
    TimesInterval(m as real, n as real, interval);
  }

  // ---------------------------------------------------------------- the schedule

  class AccuracySchedule {
    var schedule: Option<Schedule>
    var terminal: bool
    var closed: bool
    var nextGeneration: nat
    ghost var done: seq<Done>

    ghost function State(): Lifecycle
      reads this
    {
      Lifecycle(schedule, terminal, closed, nextGeneration, done)
    }

    constructor ()
      ensures State() == FRESH
    {
      schedule, terminal, closed, nextGeneration, done := None, false, false, 0, [];
    }

    method SetGoal(task: string, goal: real, anchor: real) returns (changed: bool)
      modifies this
      ensures State() == Step(old(State()), Event.SetGoal(task, goal, anchor))
      ensures changed <==> State() != old(State())
      ensures GoalTaken(old(State()), State(), changed, task, goal, anchor)
    {
      GoalTakes(State(), task, goal, anchor);
      if task == "" || goal <= 0.0 {
        return false;
      }
      if schedule.Some? && schedule.value.task == task && !MateriallyChanged(schedule.value.goal, goal) {
        return false;
      }
      schedule := Some(Schedule(task, goal, goal / ACCURACY_REVIEW_SEGMENTS, anchor, 1, nextGeneration, None, 0));
      nextGeneration := nextGeneration + 1;
      return true;
    }

    method PrepareReview(generation: nat, snapshot: Snapshot, now: real) returns (prepared: bool)
      modifies this
      ensures State() == Step(old(State()), Prepare(generation, snapshot, now))
      ensures prepared <==> schedule.Some? && schedule.value.pending.Some?
                            && !(old(schedule).Some? && old(schedule).value.pending.Some?)
      ensures Inv(old(State())) ==>
        && ReviewPrepared(old(State()), State(), prepared, generation, snapshot, now)
        && (!prepared ==> LookedAt(old(State()), State(), generation, snapshot, now))
    {
      if Inv(State()) {
        PrepareIsMeant(State(), generation, snapshot, now);
      }
      if schedule.None? || schedule.value.generation != generation || schedule.value.pending.Some? {
        return false;
      }
      if snapshot.Finished? {
        if !closed {
          terminal := true;
          schedule := None;
        }
        return false;
      }
      if terminal {
        return false;
      }
      if snapshot.Missing? {
        schedule := Some(schedule.value.(refreshAttempts := schedule.value.refreshAttempts + 1));
        return false;
      }
      if snapshot.Withdrawn? {
        schedule := None;
        return false;
      }
      if snapshot.Estimate? && snapshot.goal > 0.0 && MateriallyChanged(schedule.value.goal, snapshot.goal) {
        var changed := SetGoal(schedule.value.task, snapshot.goal, now);
        return false;
      }
      var current := schedule.value;
      if current.interval <= 0.0 {
        schedule := None;
        return false;
      }
      var last := CheckpointReached(current.anchor, current.interval, now);
      if last < current.next {
        return false;
      }
      var review := Review(ReviewId(current.generation, current.next, last), Prepared, 0, 0, 0.0, now);
      schedule := Some(current.(pending := Some(review), refreshAttempts := 0));
      return true;
    }

    method ClaimReview(owner: nat, pid: nat, now: real, alive: bool) returns (claimed: Option<ReviewId>)
      modifies this
      ensures State() == Step(old(State()), Claim(owner, pid, now, alive))
      ensures claimed == AfterClaim(old(State()), owner, pid, now, alive).1
      ensures ReviewClaimed(old(State()), State(), claimed, owner, pid, now, alive)
    {
      if closed || terminal || schedule.None? || schedule.value.pending.None? {
        return None;
      }
      var pending := schedule.value.pending.value;
      if pending.phase.Dispatched? || (pending.phase.Claimed? && pending.until > now && alive) {
        return None;
      }
      pending := pending.(phase := Claimed, owner := owner, pid := pid, until := now + ACCURACY_REVIEW_CLAIM_SECONDS);
      schedule := Some(schedule.value.(pending := Some(pending)));
      return Some(pending.id);
    }

    method MarkReviewDispatched(id: ReviewId) returns (marked: bool)
      modifies this
      ensures State() == Step(old(State()), MarkDispatched(id))
      ensures ReviewDispatched(old(State()), State(), marked, id)
    {
      if schedule.None? || schedule.value.pending.None? || schedule.value.pending.value.id != id {
        return false;
      }
      var pending := schedule.value.pending.value.(phase := Dispatched, until := 0.0);
      schedule := Some(schedule.value.(pending := Some(pending)));
      return true;
    }

    method CompleteReview(id: ReviewId) returns (completed: bool)
      modifies this
      ensures State() == Step(old(State()), Complete(id))
      ensures ReviewCompleted(old(State()), State(), completed, id)
    {
      if schedule.None? || schedule.value.pending.None? || schedule.value.pending.value.id != id {
        return false;
      }
      var current := schedule.value;
      done := done + [Done(id, current.pending.value.createdAt, current.anchor, current.interval)];
      var next := if current.next > id.last + 1 then current.next else id.last + 1;
      schedule := Some(current.(next := next, pending := None));
      return true;
    }
  }
}
