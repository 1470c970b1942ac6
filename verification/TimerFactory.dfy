/**
 * Software timers of generic/timer_factory.c on one hardware timer: the periodic mode
 * counts its interrupts, the tickless mode reads a running counter and programs the time
 * of its next interrupt.
 *
 * Callbacks are steps of the environment: each may enable and disable any timers, its own
 * included, except that it may not enable a timer which has expired and waits for its call.
 */
module TimerFactory {
  import opened Common
  import opened TimerQueue

  /** Call of a timer that was armed for `deadline`. */
  datatype Call = Call(id: nat, deadline: nat, time: nat, stamp: nat)

  /** What became of an arming: the timer waits, call number `call` was made for it, or it was disabled before. */
  datatype Fate = Waiting | Called(call: nat) | Cancelled

  /** One arming of a timer; its stamp is its index in the history. */
  datatype Arming = Arming(id: nat, deadline: nat, fate: Fate)

  /**
   * Deadlines a timer has met since it was enabled at `base`, when `since` calls had been
   * made, until it is disabled or done.
   */
  datatype Life = Life(base: nat, since: nat, fires: seq<nat>, active: bool)

  /** Deadlines and times of the calls of a timer. */
  function Met(calls: seq<Call>, id: nat): seq<nat> {
    if calls == [] then [] else
      var last := |calls| - 1;
      Met(calls[..last], id) + if calls[last].id == id then [calls[last].deadline] else []
  }

  function Times(calls: seq<Call>, id: nat): seq<nat> {
    if calls == [] then [] else
      var last := |calls| - 1;
      Times(calls[..last], id) + if calls[last].id == id then [calls[last].time] else []
  }

  lemma LoggedLife(lives: seq<Life>, calls: seq<Call>, id: nat, life: Life)
    requires Logged(lives, calls) && id < |lives|
    requires life.active ==> life.since <= |calls| && life.fires == Met(calls[life.since..], id)
    ensures Logged(lives[id := life], calls)
  {
  }

  lemma LoggedNewLife(lives: seq<Life>, calls: seq<Call>, life: Life)
    requires Logged(lives, calls) && !life.active
    ensures Logged(lives + [life], calls)
  {
  }

  lemma ExactCall(calls: seq<Call>, call: Call)
    requires Exact(calls) && call.time == call.deadline
    ensures Exact(calls + [call])
  {
  }

  /**
   * The history of all armings: every call is for one arming and every arming has at most
   * one call, not before its deadline; exactly the armed and the expired timers wait.
   */
  ghost predicate Ledger(armings: seq<Arming>, timers: seq<Timer>, pending: seq<nat>, calls: seq<Call>) {
    && (forall s | 0 <= s < |armings| ::
          match armings[s].fate
          case Waiting =>
            && armings[s].id < |timers| && timers[armings[s].id].stamp == s
            && timers[armings[s].id].deadline == armings[s].deadline
            && (timers[armings[s].id].enabled || armings[s].id in pending)
          case Called(k) => k < |calls| && calls[k].stamp == s
          case Cancelled => true)
    && (forall k | 0 <= k < |calls| ::
          && calls[k].stamp < |armings| && armings[calls[k].stamp] == Arming(calls[k].id, calls[k].deadline, Called(k))
          && calls[k].deadline <= calls[k].time)
    && (forall i | 0 <= i < |timers| && (timers[i].enabled || i in pending) ::
          timers[i].stamp < |armings| && armings[timers[i].stamp] == Arming(i, timers[i].deadline, Waiting))
  }

  /** Armings are not forgotten, and those of `keep` are not cancelled. */
  ghost predicate Recorded(a: seq<Arming>, b: seq<Arming>, keep: nat) {
    && |a| <= |b|
    && (forall s | 0 <= s < |a| ::
          && b[s].id == a[s].id && b[s].deadline == a[s].deadline
          && (a[s].fate != Waiting ==> b[s].fate == a[s].fate)
          && (a[s].id == keep && a[s].fate != Cancelled ==> b[s].fate != Cancelled))
    && (forall s | |a| <= s < |b| && b[s].id == keep :: b[s].fate != Cancelled)
  }

  lemma RecordedStill(a: seq<Arming>, keep: nat)
    ensures Recorded(a, a, keep)
  {
  }

  lemma RecordedTwice(a: seq<Arming>, b: seq<Arming>, c: seq<Arming>, keep: nat)
    requires Recorded(a, b, keep) && Recorded(b, c, keep)
    ensures Recorded(a, c, keep)
  {
  }

  /** A timer without an arming that waits is armed. */
  lemma LedgerArmed(
    armings: seq<Arming>, timers: seq<Timer>, pending: seq<nat>, calls: seq<Call>, id: nat, timer: Timer, keep: nat)
    requires Ledger(armings, timers, pending, calls) && id < |timers|
    requires !timers[id].enabled && id !in pending && timer.enabled && timer.stamp == |armings|
    ensures Ledger(armings + [Arming(id, timer.deadline, Waiting)], timers[id := timer], pending, calls)
    ensures Recorded(armings, armings + [Arming(id, timer.deadline, Waiting)], keep)
  {
  }

  /** A new timer has a stamp of its own, which belongs to no arming. */
  lemma LedgerCreated(
    armings: seq<Arming>, timers: seq<Timer>, pending: seq<nat>, calls: seq<Call>, timer: Timer)
    requires Ledger(armings, timers, pending, calls) && !timer.enabled
    requires forall i | i in pending :: i < |timers|
    ensures Ledger(armings + [Arming(|timers|, timer.deadline, Cancelled)], timers + [timer], pending, calls)
  {
  }

  /** The history after timer `id` is disabled: an expired timer is called all the same. */
  function Revoked(armings: seq<Arming>, timer: Timer): seq<Arming> {
    if timer.enabled && timer.stamp < |armings| then
      armings[timer.stamp := armings[timer.stamp].(fate := Cancelled)]
    else armings
  }

  lemma LedgerDisabled(
    armings: seq<Arming>, timers: seq<Timer>, pending: seq<nat>, calls: seq<Call>, id: nat, keep: nat)
    requires Ledger(armings, timers, pending, calls) && id < |timers| && id != keep
    requires timers[id].enabled ==> id !in pending
    ensures Ledger(Revoked(armings, timers[id]), timers[id := Disabled(timers[id])], pending, calls)
    ensures Recorded(armings, Revoked(armings, timers[id]), keep)
  {
  }

  /** Due timers wait for their calls. */
  lemma LedgerExtracted(
    armings: seq<Arming>, timers: seq<Timer>, timers': seq<Timer>, taken: seq<nat>, pending: seq<nat>, calls: seq<Call>)
    requires Ledger(armings, timers, [], calls) && Extracted(timers, timers', taken)
    requires forall i :: i in pending <==> i in taken
    requires forall i | i in taken :: i < |timers| && timers[i].enabled
    ensures Ledger(armings, timers', pending, calls)
  {
  }

  /** The oldest waiting arming of the pass is called. */
  lemma LedgerCalled(
    armings: seq<Arming>, timers: seq<Timer>, pending: seq<nat>, calls: seq<Call>, time: nat, keep: nat)
    requires Ledger(armings, timers, pending, calls) && pending != [] && pending[0] < |timers|
    requires !timers[pending[0]].enabled && pending[0] !in pending[1..] && timers[pending[0]].deadline <= time
    ensures timers[pending[0]].stamp < |armings|
    ensures var id := pending[0]; var timer := timers[id];
            var after := armings[timer.stamp := Arming(id, timer.deadline, Called(|calls|))];
            && Ledger(after, timers, pending[1..], calls + [Call(id, timer.deadline, time, timer.stamp)])
            && Recorded(armings, after, keep)
  {
    assert forall i :: i in pending <==> i == pending[0] || i in pending[1..];
  }

  /** Every call was made at its deadline. */
  ghost predicate Exact(calls: seq<Call>) {
    forall k | 0 <= k < |calls| :: calls[k].time == calls[k].deadline
  }

  lemma {:induction false} ExactTimes(calls: seq<Call>, id: nat)
    requires Exact(calls)
    ensures Times(calls, id) == Met(calls, id)
  {
    if calls != [] {
      ExactTimes(calls[..|calls| - 1], id);
    }
  }

  /** The deadlines met by an active timer are those of its calls since it was enabled. */
  ghost predicate Logged(lives: seq<Life>, calls: seq<Call>) {
    forall i | 0 <= i < |lives| && lives[i].active ::
      lives[i].since <= |calls| && lives[i].fires == Met(calls[lives[i].since..], i)
  }

  /** The call of an expired timer. */
  function CallOf(id: nat, timer: Timer, time: nat): Call {
    Call(id, timer.deadline, time, timer.stamp)
  }

  ghost predicate Stamps(timers: seq<Timer>, clock: nat) {
    forall i | 0 <= i < |timers| :: timers[i].stamp < clock
  }

  lemma RecordedFurther(a: seq<Arming>, b: seq<Arming>, c: seq<Arming>, keep: nat)
    requires Recorded(a, b, keep) && |b| <= |c| <= |b| + 1 && c[..|b|] == b
    requires |c| == |b| + 1 ==> c[|b|].fate == Waiting
    ensures Recorded(a, c, keep)
  {
    assert forall s | 0 <= s < |b| :: c[s] == b[s];
  }

  lemma LoggedCall(lives: seq<Life>, calls: seq<Call>, call: Call, timer: Timer)
    requires Logged(lives, calls) && call.id < |lives| && call.deadline == timer.deadline
    ensures Logged(lives[call.id := Fired(lives[call.id], timer)], calls + [call])
  {
    var longer := calls + [call];
    forall i | 0 <= i < |lives| && lives[i].active
      ensures Met(longer[lives[i].since..], i) == lives[i].fires + if call.id == i then [call.deadline] else []
    {
      var own := longer[lives[i].since..];
      assert own[..|own| - 1] == calls[lives[i].since..];
    }
  }

  function Last(life: Life): nat {
    if life.fires == [] then life.base else life.fires[|life.fires| - 1]
  }

  ghost predicate Steady(life: Life, period: nat) {
    && (life.fires != [] ==> life.fires[0] == life.base + period)
    && forall k | 0 < k < |life.fires| :: life.fires[k] == life.fires[k - 1] + period
  }

  /** Steady deadlines are base + period, base + 2 * period and so on. */
  lemma {:induction false} SteadyIsPeriodic(life: Life, period: nat, k: nat)
    requires Steady(life, period) && k < |life.fires|
    ensures life.fires[k] == life.base + (k + 1) * period
  {
    if k == 0 {
    } else {
      SteadyIsPeriodic(life, period, k - 1);
      assert life.fires[k] == life.fires[k - 1] + period;
    }
  }

  lemma SteadyExtends(life: Life, period: nat, deadline: nat, active: bool)
    requires Steady(life, period) && deadline == Last(life) + period
    ensures Steady(life.(fires := life.fires + [deadline], active := active), period)
  {
    var longer := life.(fires := life.fires + [deadline]);
    assert forall k | 0 <= k < |life.fires| :: longer.fires[k] == life.fires[k];
  }

  /** Armed, expired and not called yet, or in its callback. */
  predicate InUse(i: nat, timers: seq<Timer>, pending: seq<nat>, running: Option<nat>)
    requires i < |timers|
  {
    timers[i].enabled || i in pending || running == Some(i)
  }

  /** Membership of the list and the flags of every timer agree. */
  ghost predicate Flagged(list: seq<nat>, pending: seq<nat>, running: Option<nat>, timers: seq<Timer>) {
    && Known(list, timers) && Ordered(list, timers)
    && (forall k | 0 <= k < |list| :: timers[list[k]].enabled)
    && (forall i | 0 <= i < |timers| && timers[i].enabled :: i in list)
    && Known(pending, timers) && Distinct(pending)
    && (forall k | 0 <= k < |pending| :: !timers[pending[k]].enabled)
    && (running.Some? ==> running.value < |timers| && running.value !in pending)
    && (forall i | 0 <= i < |timers| && timers[i].scheduled ::
          && timers[i].continuous && InUse(i, timers, pending, running)
          && (running == Some(i) ==> !timers[i].enabled))
  }

  ghost predicate Stamped(timers: seq<Timer>, clock: nat, overflow: u32, longest: nat) {
    forall i | 0 <= i < |timers| ::
      && 1 <= timers[i].period <= longest && timers[i].stamp < clock
      && timers[i].timestamp == timers[i].deadline % (overflow + 1)
  }

  /**
   * Armed timers lie beyond the last pass, expired ones do not; those that will be armed
   * again are less than a period late in that pass, as the source asserts.
   */
  ghost predicate Timed(list: seq<nat>, pending: seq<nat>, running: Option<nat>, timers: seq<Timer>, passed: nat) {
    && (forall k | 0 <= k < |list| && list[k] < |timers| :: passed < timers[list[k]].deadline)
    && (forall k | 0 <= k < |pending| && pending[k] < |timers| :: timers[pending[k]].deadline <= passed)
    && (running.Some? && running.value < |timers| && timers[running.value].scheduled ==>
          timers[running.value].deadline <= passed)
    && (forall i | 0 <= i < |timers| && timers[i].scheduled :: passed < timers[i].deadline + timers[i].period)
  }

  /** All deadlines that are in the list, or will be after the calls, can be compared with each other. */
  predicate Prompt(timers: seq<Timer>, pending: seq<nat>, running: Option<nat>, time: nat, longest: nat, span: nat) {
    forall i | 0 <= i < |timers| && InUse(i, timers, pending, running) ::
      && (timers[i].enabled || timers[i].scheduled ==>
            time + longest < timers[i].deadline + (if timers[i].enabled then 0 else timers[i].period) + span)
      && timers[i].deadline <= time + timers[i].period
  }

  ghost predicate Alive(timers: seq<Timer>, lives: seq<Life>, pending: seq<nat>, running: Option<nat>) {
    && |lives| == |timers|
    && (forall i | 0 <= i < |timers| && (timers[i].enabled || timers[i].scheduled) :: lives[i].active)
    && (forall i | 0 <= i < |timers| && lives[i].active ::
          && Steady(lives[i], timers[i].period) && InUse(i, timers, pending, running)
          && (!timers[i].enabled && (timers[i].continuous || running == Some(i)) ==> timers[i].scheduled)
          && timers[i].deadline == Last(lives[i])
               + (if running == Some(i) && !timers[i].enabled then 0 else timers[i].period))
  }

  /** Everything the queues, the flags and the deadlines have in common. */
  ghost predicate Sound(
    list: seq<nat>, pending: seq<nat>, running: Option<nat>, timers: seq<Timer>, lives: seq<Life>,
    clock: nat, passed: nat, now: nat, overflow: u32, longest: nat)
  {
    && Flagged(list, pending, running, timers) && Stamped(timers, clock, overflow, longest)
    && Timed(list, pending, running, timers, passed)
    && Prompt(timers, pending, running, now, longest, overflow / 2)
    && Alive(timers, lives, pending, running)
  }

  /** `id` enters the list at index `k`: it was free, or it is in its callback and leaves it. */
  ghost predicate Enters(
    list: seq<nat>, pending: seq<nat>, running: Option<nat>, timers: seq<Timer>,
    id: nat, k: nat, timer: Timer, running': Option<nat>)
  {
    && id < |timers| && !timers[id].enabled && id !in pending && k <= |list| && Known(list, timers)
    && timer.enabled && timer.period == timers[id].period && timer.continuous == timers[id].continuous
    && timer.scheduled == timers[id].scheduled
    && (running' == running || (running == Some(id) && running' == None))
    && (timer.scheduled ==> timer.continuous && running' != Some(id))
    && (forall i | 0 <= i < k :: timers[list[i]].deadline < timer.deadline)
    && (k < |list| ==> timer.deadline <= timers[list[k]].deadline)
  }

  lemma EntersOrdered(list: seq<nat>, timers: seq<Timer>, id: nat, k: nat, timer: Timer)
    requires Known(list, timers) && Ordered(list, timers) && id < |timers| && id !in list && k <= |list|
    requires forall i | 0 <= i < k :: timers[list[i]].deadline < timer.deadline
    requires k < |list| ==> timer.deadline <= timers[list[k]].deadline
    requires forall i | 0 <= i < |list| :: timers[list[i]].stamp < timer.stamp
    ensures Known(list[..k] + [id] + list[k..], timers[id := timer])
    ensures Ordered(list[..k] + [id] + list[k..], timers[id := timer])
  {
    var after := timers[id := timer];
    assert forall i | 0 <= i < |list| :: after[list[i]] == timers[list[i]];
    assert forall i | k < i < |list| :: Before(timers[list[k]], timers[list[i]]);
    InsertedInOrder(list, after, id, k);
  }

  lemma EntersFlagged(
    list: seq<nat>, pending: seq<nat>, running: Option<nat>, timers: seq<Timer>, clock: nat,
    id: nat, k: nat, timer: Timer, running': Option<nat>)
    requires Flagged(list, pending, running, timers) && Enters(list, pending, running, timers, id, k, timer, running')
    requires timer.stamp == clock && forall i | 0 <= i < |timers| :: timers[i].stamp < clock
    ensures Flagged(list[..k] + [id] + list[k..], pending, running', timers[id := timer])
  {
    hide Ordered, Distinct;
    EntersOrdered(list, timers, id, k, timer);
    var longer, after := list[..k] + [id] + list[k..], timers[id := timer];
    assert forall i :: i in longer <==> i == id || i in list by {
      assert list == list[..k] + list[k..];
    }
    assert forall j | 0 <= j < |longer| :: longer[j] in longer && after[longer[j]].enabled;
    forall i | 0 <= i < |after| && after[i].scheduled
      ensures after[i].continuous && InUse(i, after, pending, running') && (running' == Some(i) ==> !after[i].enabled)
    {
      if i != id {
        assert InUse(i, timers, pending, running);
      }
    }
  }

  lemma EntersTimed(
    list: seq<nat>, pending: seq<nat>, running: Option<nat>, timers: seq<Timer>, passed: nat,
    id: nat, k: nat, timer: Timer, running': Option<nat>)
    requires Timed(list, pending, running, timers, passed)
    requires Enters(list, pending, running, timers, id, k, timer, running') && passed < timer.deadline
    ensures Timed(list[..k] + [id] + list[k..], pending, running', timers[id := timer], passed)
  {
    var longer, after := list[..k] + [id] + list[k..], timers[id := timer];
    forall j | 0 <= j < |longer| && longer[j] < |after|
      ensures passed < after[longer[j]].deadline
    {
      if j != k {
        var j' := if j < k then j else j - 1;
        assert longer[j] == list[j'];
      }
    }
    forall j | 0 <= j < |pending| && pending[j] < |after|
      ensures after[pending[j]].deadline <= passed
    {
      assert pending[j] in pending;
    }
  }

  lemma EntersPrompt(
    list: seq<nat>, pending: seq<nat>, running: Option<nat>, timers: seq<Timer>, now: nat, longest: nat, span: nat,
    id: nat, k: nat, timer: Timer, running': Option<nat>)
    requires Prompt(timers, pending, running, now, longest, span)
    requires Enters(list, pending, running, timers, id, k, timer, running')
    requires now + longest < timer.deadline + span && timer.deadline <= now + timer.period
    ensures Prompt(timers[id := timer], pending, running', now, longest, span)
  {
    var after := timers[id := timer];
    forall i | 0 <= i < |after| && InUse(i, after, pending, running')
      ensures after[i].deadline <= now + after[i].period
      ensures after[i].enabled || after[i].scheduled ==>
                now + longest < after[i].deadline + (if after[i].enabled then 0 else after[i].period) + span
    {
      assert i != id ==> InUse(i, timers, pending, running);
    }
  }

  lemma EntersAlive(
    list: seq<nat>, pending: seq<nat>, running: Option<nat>, timers: seq<Timer>, lives: seq<Life>,
    id: nat, k: nat, timer: Timer, running': Option<nat>, life: Life)
    requires Alive(timers, lives, pending, running)
    requires Enters(list, pending, running, timers, id, k, timer, running')
    requires life.active && Steady(life, timer.period) && timer.deadline == Last(life) + timer.period
    ensures Alive(timers[id := timer], lives[id := life], pending, running')
  {
    var after, lives' := timers[id := timer], lives[id := life];
    forall i | 0 <= i < |after| && lives'[i].active
      ensures Steady(lives'[i], after[i].period) && InUse(i, after, pending, running')
      ensures !after[i].enabled && (after[i].continuous || running' == Some(i)) ==> after[i].scheduled
      ensures after[i].deadline == Last(lives'[i])
                + (if running' == Some(i) && !after[i].enabled then 0 else after[i].period)
    {
      assert i != id ==> InUse(i, timers, pending, running);
    }
  }

  ghost predicate Near(a: nat, b: nat, span: nat) {
    a < b + span && b < a + span
  }

  /** Timers in use can be compared with any deadline that is set now. */
  lemma PromptNear(
    list: seq<nat>, pending: seq<nat>, running: Option<nat>, timers: seq<Timer>, now: nat, longest: nat, span: nat,
    deadline: nat)
    requires Flagged(list, pending, running, timers) && Prompt(timers, pending, running, now, longest, span)
    requires forall i | 0 <= i < |timers| :: timers[i].period <= longest
    requires deadline <= now + longest < deadline + span
    ensures forall k | 0 <= k < |list| :: Near(timers[list[k]].deadline, deadline, span)
  {
    forall k | 0 <= k < |list|
      ensures Near(timers[list[k]].deadline, deadline, span)
    {
      assert InUse(list[k], timers, pending, running);
    }
  }

  /** The deadline of a timer that is armed at `now`, or armed again after it has passed. */
  ghost predicate Armable(
    timer: Timer, running: Option<nat>, running': Option<nat>, timers: seq<Timer>, pending: seq<nat>, id: nat,
    clock: nat, passed: nat, now: nat, overflow: u32, longest: nat, life: Life)
  {
    && id < |timers| && !timers[id].enabled && id !in pending
    && timer.enabled && timer.period == timers[id].period && timer.continuous == timers[id].continuous
    && timer.scheduled == timers[id].scheduled && timer.stamp == clock
    && (running' == running || (running == Some(id) && running' == None))
    && (timer.scheduled ==> running' != Some(id))
    && timer.timestamp == timer.deadline % (overflow + 1)
    && passed < timer.deadline <= now + timer.period && now + longest < timer.deadline + overflow / 2
    && life.active && Steady(life, timer.period) && timer.deadline == Last(life) + timer.period
  }

  lemma EntersSound(
    list: seq<nat>, pending: seq<nat>, running: Option<nat>, timers: seq<Timer>, lives: seq<Life>,
    clock: nat, passed: nat, now: nat, overflow: u32, longest: nat,
    id: nat, k: nat, timer: Timer, running': Option<nat>, life: Life)
    requires Sound(list, pending, running, timers, lives, clock, passed, now, overflow, longest)
    requires Armable(timer, running, running', timers, pending, id, clock, passed, now, overflow, longest, life)
    requires k <= |list| && forall i | 0 <= i < k :: timers[list[i]].deadline < timer.deadline
    requires k < |list| ==> timer.deadline <= timers[list[k]].deadline
    ensures Sound(list[..k] + [id] + list[k..], pending, running', timers[id := timer], lives[id := life],
                  clock + 1, passed, now, overflow, longest)
  {
    assert Enters(list, pending, running, timers, id, k, timer, running') by {
      hide Timed, Prompt, Alive, Ordered, Stamped;
    }
    hide Flagged, Timed, Prompt, Alive, Enters, Ordered;
    EntersFlagged(list, pending, running, timers, clock, id, k, timer, running');
    EntersTimed(list, pending, running, timers, passed, id, k, timer, running');
    EntersPrompt(list, pending, running, timers, now, longest, overflow / 2, id, k, timer, running');
    EntersAlive(list, pending, running, timers, lives, id, k, timer, running', life);
  }

  lemma Insertable(
    list: seq<nat>, pending: seq<nat>, running: Option<nat>, timers: seq<Timer>, lives: seq<Life>,
    clock: nat, passed: nat, now: nat, overflow: u32, longest: nat, id: nat, timer: Timer)
    requires Sound(list, pending, running, timers, lives, clock, passed, now, overflow, longest)
    requires id < |timers| && !timers[id].enabled && timer.period == timers[id].period
    requires timer.deadline <= now + timer.period && now + longest < timer.deadline + overflow / 2
    ensures id !in list && |lives| == |timers| && Known(list, timers)
    ensures forall i | 0 <= i < |list| ::
              && Wrapped(timers[list[i]], overflow)
              && Near(timers[list[i]].deadline, timer.deadline, overflow / 2)
  {
    PromptNear(list, pending, running, timers, now, longest, overflow / 2, timer.deadline);
  }

  function Disabled(timer: Timer): Timer {
    timer.(enabled := false, scheduled := false)
  }

  /** Removing one element keeps the order of the others. */
  lemma RemovedOrdered(list: seq<nat>, timers: seq<Timer>, k: nat, timer: Timer)
    requires Known(list, timers) && Ordered(list, timers) && k < |list|
    ensures var shorter := list[..k] + list[k + 1..];
            Known(shorter, timers[list[k] := timer]) && Ordered(shorter, timers[list[k] := timer])
            && list[k] !in shorter && forall i | i in list && i != list[k] :: i in shorter
  {
    var shorter, after := list[..k] + list[k + 1..], timers[list[k] := timer];
    forall i, j | 0 <= i < j < |shorter|
      ensures Before(after[shorter[i]], after[shorter[j]])
    {
      var i', j' := if i < k then i else i + 1, if j < k then j else j + 1;
      assert shorter[i] == list[i'] && shorter[j] == list[j'];
      assert list[i'] != list[k] && list[j'] != list[k];
      assert Before(timers[list[i']], timers[list[j']]);
    }
    assert list == list[..k] + [list[k]] + list[k + 1..];
  }

  lemma RemovedListed(list: seq<nat>, timers: seq<Timer>, k: nat, timer: Timer)
    requires Known(list, timers) && Ordered(list, timers) && k < |list|
    requires forall j | 0 <= j < |list| :: timers[list[j]].enabled
    requires forall i | 0 <= i < |timers| && timers[i].enabled :: i in list
    requires !timer.enabled
    ensures var shorter, after := list[..k] + list[k + 1..], timers[list[k] := timer];
            && Known(shorter, after) && Ordered(shorter, after)
            && (forall j | 0 <= j < |shorter| :: after[shorter[j]].enabled)
            && (forall i | 0 <= i < |after| && after[i].enabled :: i in shorter)
  {
    var shorter, after := list[..k] + list[k + 1..], timers[list[k] := timer];
    RemovedOrdered(list, timers, k, timer);
    hide Ordered;
    forall j | 0 <= j < |shorter|
      ensures after[shorter[j]].enabled
    {
      assert shorter[j] == list[if j < k then j else j + 1];
      assert shorter[j] in shorter;
    }
  }

  lemma OrderedElsewhere(list: seq<nat>, timers: seq<Timer>, id: nat, timer: Timer)
    requires Known(list, timers) && Ordered(list, timers) && id < |timers| && id !in list
    ensures Known(list, timers[id := timer]) && Ordered(list, timers[id := timer])
  {
  }

  /** Timer `id` is disabled; `shorter` is the list without it. */
  lemma DisabledFlagged(
    list: seq<nat>, pending: seq<nat>, running: Option<nat>, timers: seq<Timer>, id: nat, shorter: seq<nat>)
    requires Flagged(list, pending, running, timers) && id < |timers|
    requires if timers[id].enabled then
               exists k | 0 <= k < |list| && list[k] == id :: shorter == list[..k] + list[k + 1..]
             else shorter == list
    ensures Flagged(shorter, pending, running, timers[id := Disabled(timers[id])])
  {
    hide Ordered, Distinct;
    var after := timers[id := Disabled(timers[id])];
    if timers[id].enabled {
      var k :| 0 <= k < |list| && list[k] == id && shorter == list[..k] + list[k + 1..];
      RemovedListed(list, timers, k, after[id]);
    } else {
      OrderedElsewhere(list, timers, id, after[id]);
    }
    forall i | 0 <= i < |after| && after[i].scheduled
      ensures after[i].continuous && InUse(i, after, pending, running) && (running == Some(i) ==> !after[i].enabled)
    {
      assert InUse(i, timers, pending, running);
    }
  }

  lemma DisabledTimed(
    list: seq<nat>, pending: seq<nat>, running: Option<nat>, timers: seq<Timer>, passed: nat, id: nat, shorter: seq<nat>)
    requires Timed(list, pending, running, timers, passed) && id < |timers|
    requires Known(list, timers) && forall i | i in shorter :: i in list
    ensures Timed(shorter, pending, running, timers[id := Disabled(timers[id])], passed)
  {
    var after := timers[id := Disabled(timers[id])];
    forall j | 0 <= j < |shorter| && shorter[j] < |after|
      ensures passed < after[shorter[j]].deadline
    {
      assert shorter[j] in list;
    }
    forall j | 0 <= j < |pending| && pending[j] < |after|
      ensures after[pending[j]].deadline <= passed
    {
      assert pending[j] in pending;
    }
  }

  lemma DisabledAlive(
    timers: seq<Timer>, lives: seq<Life>, pending: seq<nat>, running: Option<nat>, id: nat)
    requires Alive(timers, lives, pending, running) && id < |timers|
    ensures Alive(timers[id := Disabled(timers[id])], lives[id := lives[id].(active := false)], pending, running)
  {
    var after, lives' := timers[id := Disabled(timers[id])], lives[id := lives[id].(active := false)];
    forall i | 0 <= i < |after| && lives'[i].active
      ensures Steady(lives'[i], after[i].period) && InUse(i, after, pending, running)
      ensures !after[i].enabled && (after[i].continuous || running == Some(i)) ==> after[i].scheduled
      ensures after[i].deadline == Last(lives'[i])
                + (if running == Some(i) && !after[i].enabled then 0 else after[i].period)
    {
      assert i != id;
    }
  }

  lemma DisabledSound(
    list: seq<nat>, pending: seq<nat>, running: Option<nat>, timers: seq<Timer>, lives: seq<Life>,
    clock: nat, passed: nat, now: nat, overflow: u32, longest: nat, id: nat, shorter: seq<nat>)
    requires Sound(list, pending, running, timers, lives, clock, passed, now, overflow, longest) && id < |timers|
    requires if timers[id].enabled then
               exists k | 0 <= k < |list| && list[k] == id :: shorter == list[..k] + list[k + 1..]
             else shorter == list
    ensures |lives| == |timers|
    ensures Sound(shorter, pending, running, timers[id := Disabled(timers[id])],
                  lives[id := lives[id].(active := false)], clock, passed, now, overflow, longest)
  {
    assert |lives| == |timers|;
    hide Timed, Alive, Prompt, Ordered, Distinct;
    DisabledFlagged(list, pending, running, timers, id, shorter);
    DisabledTimed(list, pending, running, timers, passed, id, shorter);
    DisabledAlive(timers, lives, pending, running, id);
    DisabledPrompt(timers, pending, running, now, longest, overflow / 2, id);
  }

  lemma DisabledPrompt(
    timers: seq<Timer>, pending: seq<nat>, running: Option<nat>, now: nat, longest: nat, span: nat, id: nat)
    requires Prompt(timers, pending, running, now, longest, span) && id < |timers|
    ensures Prompt(timers[id := Disabled(timers[id])], pending, running, now, longest, span)
  {
    var after := timers[id := Disabled(timers[id])];
    forall i | 0 <= i < |after| && InUse(i, after, pending, running)
      ensures after[i].deadline <= now + after[i].period
      ensures after[i].enabled || after[i].scheduled ==>
                now + longest < after[i].deadline + (if after[i].enabled then 0 else after[i].period) + span
    {
      assert InUse(i, timers, pending, running);
    }
  }

  /** Timers taken from the list: their flags say whether they are armed again after the call. */
  function Expired(timer: Timer): Timer {
    timer.(enabled := false, scheduled := timer.continuous)
  }

  ghost predicate Extracted(timers: seq<Timer>, timers': seq<Timer>, taken: seq<nat>) {
    && |timers'| == |timers|
    && forall i | 0 <= i < |timers| :: timers'[i] == if i in taken then Expired(timers[i]) else timers[i]
  }

  lemma ExtractedOrdered(list: seq<nat>, timers: seq<Timer>, timers': seq<Timer>, k: nat)
    requires Known(list, timers) && Ordered(list, timers) && k <= |list|
    requires Extracted(timers, timers', list[..k])
    ensures Known(list[k..], timers') && Ordered(list[k..], timers')
    ensures forall i | i in list[k..] :: i !in list[..k]
  {
    forall i, j | 0 <= i < k <= j < |list|
      ensures list[i] != list[j]
    {
      assert Before(timers[list[i]], timers[list[j]]);
    }
    forall i, j | 0 <= i < j < |list[k..]|
      ensures Before(timers'[list[k..][i]], timers'[list[k..][j]])
    {
      assert list[k..][i] == list[k + i] && list[k..][j] == list[k + j];
      assert Before(timers[list[k + i]], timers[list[k + j]]);
    }
  }

  lemma ExtractedDistinct(list: seq<nat>, timers: seq<Timer>, k: nat)
    requires Known(list, timers) && Ordered(list, timers) && k <= |list|
    ensures Known(Reversed(list[..k]), timers) && Distinct(Reversed(list[..k]))
    ensures forall i :: i in Reversed(list[..k]) <==> i in list[..k]
  {
    ReversedAt(list[..k]);
    var order := Reversed(list[..k]);
    forall i, j | 0 <= i < j < |order|
      ensures order[i] != order[j]
    {
      assert Before(timers[list[k - 1 - j]], timers[list[k - 1 - i]]);
    }
  }

  lemma ExtractedFlagged(list: seq<nat>, timers: seq<Timer>, timers': seq<Timer>, k: nat)
    requires Flagged(list, [], None, timers) && k <= |list| && Extracted(timers, timers', list[..k])
    ensures Flagged(list[k..], Reversed(list[..k]), None, timers')
  {
    hide Ordered, Distinct;
    ExtractedOrdered(list, timers, timers', k);
    ExtractedDistinct(list, timers, k);
    assert list == list[..k] + list[k..];
    var rest, order := list[k..], Reversed(list[..k]);
    forall j | 0 <= j < |rest|
      ensures timers'[rest[j]].enabled
    {
      assert rest[j] in rest && rest[j] == list[k + j];
    }
    forall j | 0 <= j < |order|
      ensures !timers'[order[j]].enabled
    {
      assert order[j] in order;
    }
    forall i | 0 <= i < |timers'| && timers'[i].scheduled
      ensures timers'[i].continuous && InUse(i, timers', order, None)
    {
      assert i in list[..k] || InUse(i, timers, [], None);
    }
  }

  /** At `time` exactly the first `k` timers of the list are due. */
  ghost predicate DueAt(list: seq<nat>, timers: seq<Timer>, k: nat, time: nat)
    requires Known(list, timers)
  {
    && k <= |list|
    && (forall i | 0 <= i < k :: timers[list[i]].deadline <= time)
    && (forall i | k <= i < |list| :: time < timers[list[i]].deadline)
  }

  lemma ExtractedTimed(list: seq<nat>, timers: seq<Timer>, timers': seq<Timer>, k: nat, time: nat)
    requires Flagged(list, [], None, timers) && DueAt(list, timers, k, time) && Extracted(timers, timers', list[..k])
    requires forall j | 0 <= j < k && timers[list[j]].continuous ::
               time < timers[list[j]].deadline + timers[list[j]].period
    ensures Timed(list[k..], Reversed(list[..k]), None, timers', time)
  {
    ExtractedPunctual(list, timers, timers', k, time);
    ExtractedDue(list, timers, timers', k, time);
  }

  lemma ExtractedDue(list: seq<nat>, timers: seq<Timer>, timers': seq<Timer>, k: nat, time: nat)
    requires Known(list, timers) && DueAt(list, timers, k, time) && Extracted(timers, timers', list[..k])
    ensures var rest, order := list[k..], Reversed(list[..k]);
            && (forall j | 0 <= j < |rest| && rest[j] < |timers'| :: time < timers'[rest[j]].deadline)
            && (forall j | 0 <= j < |order| && order[j] < |timers'| :: timers'[order[j]].deadline <= time)
  {
    var rest, order := list[k..], Reversed(list[..k]);
    ReversedAt(list[..k]);
    forall j | 0 <= j < |rest| && rest[j] < |timers'|
      ensures time < timers'[rest[j]].deadline
    {
      assert rest[j] == list[k + j];
    }
    forall j | 0 <= j < |order| && order[j] < |timers'|
      ensures timers'[order[j]].deadline <= time
    {
      assert order[j] == list[k - 1 - j];
    }
  }

  lemma ExtractedPunctual(list: seq<nat>, timers: seq<Timer>, timers': seq<Timer>, k: nat, time: nat)
    requires Flagged(list, [], None, timers) && DueAt(list, timers, k, time) && Extracted(timers, timers', list[..k])
    requires forall j | 0 <= j < k && timers[list[j]].continuous ::
               time < timers[list[j]].deadline + timers[list[j]].period
    ensures forall i | 0 <= i < |timers'| && timers'[i].scheduled ::
              time < timers'[i].deadline + timers'[i].period
  {
    hide Ordered, Distinct;
    forall i | 0 <= i < |timers'| && timers'[i].scheduled
      ensures time < timers'[i].deadline + timers'[i].period
    {
      assert i !in list[..k] ==> InUse(i, timers, [], None);
      var j := IndexInList(list, k, i);
    }
  }

  lemma ExtractedAlive(list: seq<nat>, timers: seq<Timer>, timers': seq<Timer>, lives: seq<Life>, k: nat)
    requires Flagged(list, [], None, timers) && k <= |list| && Extracted(timers, timers', list[..k])
    requires Alive(timers, lives, [], None)
    ensures Alive(timers', lives, Reversed(list[..k]), None)
  {
    var order := Reversed(list[..k]);
    ReversedAt(list[..k]);
    forall i | 0 <= i < |timers'| && (timers'[i].enabled || timers'[i].scheduled)
      ensures lives[i].active
    {
      if i in list[..k] {
        var j :| 0 <= j < k && list[..k][j] == i;
        assert list[j] == i;
      }
    }
    forall i | 0 <= i < |timers'| && lives[i].active
      ensures Steady(lives[i], timers'[i].period) && InUse(i, timers', order, None)
      ensures !timers'[i].enabled && timers'[i].continuous ==> timers'[i].scheduled
      ensures timers'[i].deadline == Last(lives[i]) + timers'[i].period
    {
      assert InUse(i, timers, [], None);
    }
  }

  /** What the time of a pass must satisfy; in the tickless mode the environment keeps it. */
  ghost predicate Reachable(list: seq<nat>, timers: seq<Timer>, k: nat, time: nat, longest: nat, span: nat)
    requires Known(list, timers)
  {
    forall j | 0 <= j < |list| ::
      && (timers[list[j]].continuous ==> time < timers[list[j]].deadline + timers[list[j]].period)
      && time + longest < timers[list[j]].deadline + (if j < k then timers[list[j]].period else 0) + span
  }

  lemma ExtractedPrompt(
    list: seq<nat>, timers: seq<Timer>, timers': seq<Timer>, k: nat, now: nat, time: nat, longest: nat, span: nat)
    requires Flagged(list, [], None, timers) && k <= |list| && Extracted(timers, timers', list[..k])
    requires Prompt(timers, [], None, now, longest, span) && now <= time
    requires Reachable(list, timers, k, time, longest, span)
    ensures Prompt(timers', Reversed(list[..k]), None, time, longest, span)
  {
    ExtractedDistinct(list, timers, k);
    hide Ordered, Distinct, Prompt;
    forall i | 0 <= i < |timers'| && InUse(i, timers', Reversed(list[..k]), None)
      ensures timers'[i].deadline <= time + timers'[i].period
      ensures time + longest < timers'[i].deadline + (if timers'[i].enabled then 0 else timers'[i].period) + span
    {
      assert timers[i].enabled;
      var j := IndexInList(list, k, i);
      PromptTimer(timers, now, longest, span, i);
    }
    assert Prompt(timers', Reversed(list[..k]), None, time, longest, span) by {
      PromptIs(timers', Reversed(list[..k]), None, time, longest, span);
    }
  }

  lemma PromptIs(timers: seq<Timer>, pending: seq<nat>, running: Option<nat>, time: nat, longest: nat, span: nat)
    requires forall i | 0 <= i < |timers| && InUse(i, timers, pending, running) ::
               && timers[i].deadline <= time + timers[i].period
               && time + longest < timers[i].deadline + (if timers[i].enabled then 0 else timers[i].period) + span
    ensures Prompt(timers, pending, running, time, longest, span)
  {
  }

  lemma PromptTimer(timers: seq<Timer>, time: nat, longest: nat, span: nat, i: nat)
    requires Prompt(timers, [], None, time, longest, span) && i < |timers| && timers[i].enabled
    ensures timers[i].deadline <= time + timers[i].period
  {
    assert InUse(i, timers, [], None);
  }

  /** Where a listed timer is: among the first `k` exactly if it is taken with them. */
  lemma IndexInList(list: seq<nat>, k: nat, i: nat) returns (j: nat)
    requires i in list && k <= |list|
    ensures j < |list| && list[j] == i && (j < k <==> i in list[..k])
  {
    if i in list[..k] {
      j :| 0 <= j < k && list[..k][j] == i;
    } else {
      assert list == list[..k] + list[k..];
      var n :| 0 <= n < |list[k..]| && list[k..][n] == i;
      j := k + n;
    }
  }

  /** The due timers leave the list in reverse order. */
  lemma ExtractedSound(
    list: seq<nat>, timers: seq<Timer>, lives: seq<Life>, clock: nat, passed: nat, now: nat,
    overflow: u32, longest: nat, timers': seq<Timer>, k: nat, time: nat)
    requires Sound(list, [], None, timers, lives, clock, passed, now, overflow, longest) && now <= time
    requires DueAt(list, timers, k, time) && Reachable(list, timers, k, time, longest, overflow / 2)
    requires Extracted(timers, timers', list[..k])
    ensures Sound(list[k..], Reversed(list[..k]), None, timers', lives, clock, time, time, overflow, longest)
  {
    assert Known(list, timers);
    hide Flagged, Timed, Prompt, Alive;
    ExtractedFlagged(list, timers, timers', k);
    ExtractedTimed(list, timers, timers', k, time);
    ExtractedPrompt(list, timers, timers', k, now, time, longest, overflow / 2);
    ExtractedAlive(list, timers, timers', lives, k);
  }

  /** The next expired timer is being called; its deadline has been met. */
  lemma CalledSound(
    list: seq<nat>, pending: seq<nat>, timers: seq<Timer>, lives: seq<Life>,
    clock: nat, passed: nat, now: nat, overflow: u32, longest: nat)
    requires Sound(list, pending, None, timers, lives, clock, passed, now, overflow, longest) && pending != []
    ensures |lives| == |timers| && pending[0] < |timers|
    ensures Sound(list, pending[1..], Some(pending[0]), timers,
                  lives[pending[0] := Fired(lives[pending[0]], timers[pending[0]])],
                  clock, passed, now, overflow, longest)
  {
    CalledFlagged(list, pending, timers);
    CalledTimed(list, pending, timers, passed);
    CalledAlive(timers, lives, pending);
    assert forall i | 0 <= i < |timers| :: InUse(i, timers, pending[1..], Some(pending[0])) ==> InUse(i, timers, pending, None);
    hide Flagged, Timed, Alive;
  }

  function Fired(life: Life, timer: Timer): Life {
    if life.active then life.(fires := life.fires + [timer.deadline], active := timer.continuous) else life
  }

  lemma CalledFlagged(list: seq<nat>, pending: seq<nat>, timers: seq<Timer>)
    requires Flagged(list, pending, None, timers) && pending != []
    ensures Flagged(list, pending[1..], Some(pending[0]), timers)
  {
    assert forall i :: i in pending ==> i == pending[0] || i in pending[1..];
    assert forall i | 0 <= i < |timers| && timers[i].scheduled :: InUse(i, timers, pending, None);
  }

  lemma CalledTimed(list: seq<nat>, pending: seq<nat>, timers: seq<Timer>, passed: nat)
    requires Timed(list, pending, None, timers, passed) && pending != []
    ensures Timed(list, pending[1..], Some(pending[0]), timers, passed)
  {
  }

  lemma CalledAlive(timers: seq<Timer>, lives: seq<Life>, pending: seq<nat>)
    requires Alive(timers, lives, pending, None) && pending != []
    requires pending[0] < |timers| && !timers[pending[0]].enabled && pending[0] !in pending[1..]
    requires timers[pending[0]].scheduled ==> timers[pending[0]].continuous
    ensures Alive(timers, lives[pending[0] := Fired(lives[pending[0]], timers[pending[0]])],
                  pending[1..], Some(pending[0]))
  {
    var id := pending[0];
    var lives' := lives[id := Fired(lives[id], timers[id])];
    assert forall i :: i in pending ==> i == id || i in pending[1..];
    forall i | 0 <= i < |timers| && lives'[i].active
      ensures Steady(lives'[i], timers[i].period) && InUse(i, timers, pending[1..], Some(id))
      ensures !timers[i].enabled && (timers[i].continuous || i == id) ==> timers[i].scheduled
      ensures timers[i].deadline == Last(lives'[i])
                + (if i == id && !timers[i].enabled then 0 else timers[i].period)
    {
      assert InUse(i, timers, pending, None);
      if i == id {
        SteadyExtends(lives[i], timers[i].period, timers[i].deadline, timers[i].continuous);
      }
    }
  }

  /** A callback has returned and its timer is not armed again by the handler. */
  lemma ReturnedSound(
    list: seq<nat>, pending: seq<nat>, id: nat, timers: seq<Timer>, lives: seq<Life>,
    clock: nat, passed: nat, now: nat, overflow: u32, longest: nat)
    requires Sound(list, pending, Some(id), timers, lives, clock, passed, now, overflow, longest)
    requires id < |timers| && !timers[id].scheduled
    ensures Sound(list, pending, None, timers, lives, clock, passed, now, overflow, longest)
  {
    assert forall i | 0 <= i < |timers| :: InUse(i, timers, pending, None) ==> InUse(i, timers, pending, Some(id));
    assert forall i | 0 <= i < |timers| && timers[i].scheduled :: InUse(i, timers, pending, Some(id));
    assert forall i | 0 <= i < |timers| && lives[i].active ::
      InUse(i, timers, pending, Some(id)) && (i == id ==> timers[i].enabled);
  }

  /** Callbacks leave the settings of all timers and the deadlines of expired timers alone. */
  ghost predicate Undisturbed(timers: seq<Timer>, timers': seq<Timer>, pending: seq<nat>) {
    && |timers'| == |timers|
    && (forall i | 0 <= i < |timers| ::
          && timers'[i].period == timers[i].period && timers'[i].continuous == timers[i].continuous
          && (timers'[i].scheduled ==> timers[i].scheduled)
          && (i in pending || timers'[i].scheduled ==> timers'[i].deadline == timers[i].deadline))
  }

  /** Timer `keep` has not been disabled or enabled. */
  ghost predicate Untouched(timers: seq<Timer>, timers': seq<Timer>, lives: seq<Life>, lives': seq<Life>, keep: nat) {
    && keep < |timers| == |timers'| && keep < |lives| == |lives'|
    && timers'[keep] == timers[keep] && lives'[keep] == lives[keep]
  }

  lemma SoundTimer(
    list: seq<nat>, pending: seq<nat>, running: Option<nat>, timers: seq<Timer>, lives: seq<Life>,
    clock: nat, passed: nat, now: nat, overflow: u32, longest: nat, id: nat)
    requires Sound(list, pending, running, timers, lives, clock, passed, now, overflow, longest) && id < |timers|
    ensures 1 <= timers[id].period <= longest && |lives| == |timers|
    ensures timers[id].timestamp == timers[id].deadline % (overflow + 1)
    ensures timers[id].enabled <==> id in list
  {
  }

  ghost predicate SameSettings(timers: seq<Timer>, timers': seq<Timer>) {
    && |timers'| == |timers|
    && forall i | 0 <= i < |timers| ::
         timers'[i].period == timers[i].period && timers'[i].continuous == timers[i].continuous
  }

  /** The settings of all timers and the deadlines of the waiting ones are as before. */
  ghost predicate Awaiting(timers: seq<Timer>, timers': seq<Timer>, waiting: seq<nat>) {
    && SameSettings(timers, timers')
    && (forall k | 0 <= k < |waiting| && waiting[k] < |timers| ::
          timers'[waiting[k]].deadline == timers[waiting[k]].deadline)
  }

  /** A continuous timer that was active still is, on the same grid of deadlines. */
  ghost predicate Persists(timers: seq<Timer>, lives: seq<Life>, lives': seq<Life>, keep: nat) {
    keep < |timers| && keep < |lives| && lives[keep].active && timers[keep].continuous ==>
      keep < |lives'| && lives'[keep].active && lives'[keep].base == lives[keep].base
      && lives'[keep].since == lives[keep].since
  }

  /** One call each in the given order, for the deadline of the timer and not before it. */
  ghost predicate CalledInOrder(
    calls: seq<Call>, calls': seq<Call>, order: seq<nat>, timers: seq<Timer>, from: nat, to: nat)
  {
    && |calls'| == |calls| + |order| && calls == calls'[..|calls|]
    && forall j | 0 <= j < |order| && order[j] < |timers| ::
         var call := calls'[|calls| + j];
         && call.id == order[j] && call.deadline == timers[order[j]].deadline
         && from <= call.time <= to && call.deadline <= call.time
  }

  lemma CalledExtends(
    calls: seq<Call>, calls': seq<Call>, order: seq<nat>, d: nat, timers: seq<Timer>, from: nat, to: nat, to': nat, call: Call)
    requires d < |order| && CalledInOrder(calls, calls', order[..d], timers, from, to) && to <= to'
    requires order[d] < |timers| && call.id == order[d] && call.deadline == timers[order[d]].deadline
    requires from <= call.time <= to' && call.deadline <= call.time
    ensures CalledInOrder(calls, calls' + [call], order[..d + 1], timers, from, to')
  {
    assert forall j | 0 <= j < d :: order[..d + 1][j] == order[..d][j];
  }

  lemma CalledBefore(
    calls: seq<Call>, calls': seq<Call>, order: seq<nat>, timers: seq<Timer>, from: nat, to: nat, to': nat)
    requires CalledInOrder(calls, calls', order, timers, from, to) && to <= to'
    ensures CalledInOrder(calls, calls', order, timers, from, to')
  {
  }

  /** The calls of a pass: every timer that was due, and no other, once; those of one deadline as they were armed. */
  ghost predicate DueCalled(calls: seq<Call>, calls': seq<Call>, timers: seq<Timer>, due: nat) {
    && |calls| <= |calls'| && calls == calls'[..|calls|]
    && (forall a | |calls| <= a < |calls'| ::
          calls'[a].id < |timers| && calls'[a].deadline == timers[calls'[a].id].deadline <= due)
    && (forall a, b | |calls| <= a < b < |calls'| ::
          calls'[b].id < |timers| && calls'[a].id < |timers| && Before(timers[calls'[b].id], timers[calls'[a].id]))
    && (forall id | 0 <= id < |timers| ::
          timers[id].enabled && timers[id].deadline <= due <==>
          exists a :: |calls| <= a < |calls'| && calls'[a].id == id)
  }

  lemma CalledAreKnown(calls: seq<Call>, calls': seq<Call>, timers: seq<Timer>, due: nat)
    requires DueCalled(calls, calls', timers, due)
    ensures calls <= calls' && forall a | |calls| <= a < |calls'| :: calls'[a].id < |timers|
  {
  }

  /** Call `j` of a pass is that of the timer at `count - 1 - j` in the list. */
  lemma CalledFromList(
    calls: seq<Call>, calls': seq<Call>, list: seq<nat>, timers: seq<Timer>, count: nat, from: nat, to: nat)
    requires Known(list, timers) && count <= |list|
    requires CalledInOrder(calls, calls', Reversed(list[..count]), timers, from, to)
    ensures |calls'| == |calls| + count && calls == calls'[..|calls|] && |Reversed(list[..count])| == count
    ensures forall a | |calls| <= a < |calls'| ::
              && calls'[a].id == Reversed(list[..count])[a - |calls|] == list[count - 1 - (a - |calls|)]
              && calls'[a].deadline == timers[calls'[a].id].deadline
  {
    ReversedAt(list[..count]);
    forall a | |calls| <= a < |calls'|
      ensures calls'[a].id == Reversed(list[..count])[a - |calls|] == list[count - 1 - (a - |calls|)]
      ensures calls'[a].deadline == timers[list[count - 1 - (a - |calls|)]].deadline
    {
      var j := a - |calls|;
      assert Reversed(list[..count])[j] == list[count - 1 - j];
    }
  }

  lemma DueAreCalled(
    calls: seq<Call>, calls': seq<Call>, list: seq<nat>, timers: seq<Timer>, due: nat, from: nat, to: nat)
    requires Flagged(list, [], None, timers)
    requires CalledInOrder(calls, calls', Reversed(list[..CountDue(list, timers, due)]), timers, from, to)
    ensures DueCalled(calls, calls', timers, due)
  {
    InListOrder(calls, calls', list, timers, due, from, to);
    DueTimersCalled(calls, calls', list, timers, due, from, to);
  }

  /** The calls are for due timers, in the order that the list and its reversal give. */
  lemma InListOrder(
    calls: seq<Call>, calls': seq<Call>, list: seq<nat>, timers: seq<Timer>, due: nat, from: nat, to: nat)
    requires Known(list, timers) && Ordered(list, timers)
    requires CalledInOrder(calls, calls', Reversed(list[..CountDue(list, timers, due)]), timers, from, to)
    ensures |calls| <= |calls'| && calls == calls'[..|calls|]
    ensures forall a | |calls| <= a < |calls'| ::
              && calls'[a].id < |timers| && calls'[a].id in list
              && calls'[a].deadline == timers[calls'[a].id].deadline <= due
    ensures forall a, b | |calls| <= a < b < |calls'| :: Before(timers[calls'[b].id], timers[calls'[a].id])
  {
    var count, n := CountDue(list, timers, due), |calls|;
    hide CalledInOrder, Ordered, CountDue, Reversed, Before;
    CalledFromList(calls, calls', list, timers, count, from, to);
    DueAreInFront(list, timers, due);
    forall a, b | n <= a < b < |calls'|
      ensures Before(timers[calls'[b].id], timers[calls'[a].id])
    {
      SameDeadlineInArmingOrder(list, timers, count, a - n, b - n);
    }
  }

  lemma DueTimersCalled(
    calls: seq<Call>, calls': seq<Call>, list: seq<nat>, timers: seq<Timer>, due: nat, from: nat, to: nat)
    requires Known(list, timers) && Ordered(list, timers)
    requires forall i | 0 <= i < |timers| && timers[i].enabled :: i in list
    requires CalledInOrder(calls, calls', Reversed(list[..CountDue(list, timers, due)]), timers, from, to)
    ensures forall id | 0 <= id < |timers| && timers[id].enabled && timers[id].deadline <= due ::
              exists a :: |calls| <= a < |calls'| && calls'[a].id == id
  {
    var count, n := CountDue(list, timers, due), |calls|;
    hide CalledInOrder, Ordered, CountDue, Reversed, Before;
    CalledFromList(calls, calls', list, timers, count, from, to);
    DueAreInFront(list, timers, due);
    forall id | 0 <= id < |timers| && timers[id].enabled && timers[id].deadline <= due
      ensures exists a :: n <= a < |calls'| && calls'[a].id == id
    {
      var j := IndexInList(list, count, id);
      assert calls'[n + (count - 1 - j)].id == id;
    }
  }

  /** In the periodic mode all calls of a pass are made in their tick. */
  lemma CalledInTick(calls: seq<Call>, calls': seq<Call>, order: seq<nat>, timers: seq<Timer>, now: nat)
    requires CalledInOrder(calls, calls', order, timers, now, now) && Exact(calls')
    requires Known(order, timers) && DueCalled(calls, calls', timers, now)
    ensures forall a | |calls| <= a < |calls'| :: calls'[a].deadline == calls'[a].time == now
    ensures forall a, b | |calls| <= a < b < |calls'| ::
              timers[calls'[a].id].stamp < timers[calls'[b].id].stamp
  {
    forall a | |calls| <= a < |calls'|
      ensures calls'[a].time == now
    {
      assert order[a - |calls|] < |timers|;
    }
  }

  lemma PendingTimer(
    list: seq<nat>, pending: seq<nat>, timers: seq<Timer>, lives: seq<Life>,
    clock: nat, passed: nat, now: nat, overflow: u32, longest: nat)
    requires Sound(list, pending, None, timers, lives, clock, passed, now, overflow, longest) && pending != []
    ensures pending[0] < |timers| && !timers[pending[0]].enabled && pending[0] !in pending[1..]
    ensures timers[pending[0]].deadline <= passed
    ensures Known(pending, timers)
  {
    assert InUse(pending[0], timers, pending, None);
  }

  lemma RunningTimer(
    list: seq<nat>, pending: seq<nat>, timers: seq<Timer>, lives: seq<Life>,
    clock: nat, passed: nat, now: nat, overflow: u32, longest: nat, id: nat)
    requires Sound(list, pending, Some(id), timers, lives, clock, passed, now, overflow, longest)
    ensures id < |timers| == |lives| && id !in pending && 1 <= timers[id].period <= longest
    ensures timers[id].timestamp == timers[id].deadline % (overflow + 1)
    ensures timers[id].scheduled ==>
              && passed < timers[id].deadline + timers[id].period
              && now + longest < timers[id].deadline + timers[id].period + overflow / 2
              && !timers[id].enabled && timers[id].continuous && timers[id].deadline <= passed
              && lives[id].active && Steady(lives[id], timers[id].period) && timers[id].deadline == Last(lives[id])
  {
    assert InUse(id, timers, pending, Some(id));
  }

  /** One more timer is taken from the list. */
  lemma ExtractedExtends(timers: seq<Timer>, timers': seq<Timer>, list: seq<nat>, k: nat)
    requires k < |list| && Known(list, timers) && Extracted(timers, timers', list[..k]) && list[k] !in list[..k]
    ensures timers'[list[k]] == timers[list[k]]
    ensures Extracted(timers, timers'[list[k] := Expired(timers[list[k]])], list[..k + 1])
    ensures Reversed(list[..k + 1]) == [list[k]] + Reversed(list[..k])
  {
    assert list[..k + 1] == list[..k] + [list[k]];
    ReversedExtends(list[..k], list[k]);
  }

  lemma OrderedDistinct(list: seq<nat>, timers: seq<Timer>)
    requires Known(list, timers) && Ordered(list, timers)
    ensures forall k | 0 <= k < |list| :: list[k] !in list[..k]
  {
    forall k, j | 0 <= j < k < |list|
      ensures list[j] != list[k]
    {
      assert Before(timers[list[j]], timers[list[k]]);
    }
  }

  lemma FirstUndue(list: seq<nat>, timers: seq<Timer>, k: nat, time: nat)
    requires Known(list, timers) && Ordered(list, timers) && k <= |list|
    requires forall i | 0 <= i < k :: timers[list[i]].deadline <= time
    requires k < |list| ==> time < timers[list[k]].deadline
    ensures DueAt(list, timers, k, time) && k == CountDue(list, timers, time)
  {
    assert forall i | k < i < |list| :: Before(timers[list[k]], timers[list[i]]);
    CountDueIs(list, timers, time, k);
  }

  /** One tick later: a timestamp equals the counter exactly when its deadline has come. */
  lemma TickIsReachable(
    list: seq<nat>, timers: seq<Timer>, lives: seq<Life>, clock: nat, now: nat, longest: nat)
    requires Sound(list, [], None, timers, lives, clock, now, now, TWO_32 - 1, longest)
    requires 0 < longest <= (TWO_32 - 1) / 2
    ensures Known(list, timers) && Ordered(list, timers)
    ensures forall j | 0 <= j < |list| ::
              && (timers[list[j]].timestamp == (now + 1) % TWO_32 <==> timers[list[j]].deadline <= now + 1)
              && now + 1 <= timers[list[j]].deadline
    ensures InReach(list, timers, now + 1, longest, (TWO_32 - 1) / 2, false)
  {
    forall j | 0 <= j < |list|
      ensures timers[list[j]].timestamp == (now + 1) % TWO_32 <==> timers[list[j]].deadline <= now + 1
      ensures now < timers[list[j]].deadline <= now + timers[list[j]].period
      ensures 1 <= timers[list[j]].period <= longest
    {
      assert InUse(list[j], timers, [], None);
      SameRemainder(timers[list[j]].deadline, now + 1, TWO_32);
    }
  }

  /** Instants less than a period apart differ exactly when their remainders do. */
  lemma SameRemainder(a: nat, b: nat, period: nat)
    requires 0 < period && -(period as int) < a - b < period
    ensures a % period == b % period <==> a == b
  {
    if a % period == b % period {
      DivModUnique(a - b, period, a / period - b / period, 0);
      if b <= a {
        DivModUnique(a - b, period, 0, a - b);
      } else {
        DivModUnique(a - b, period, -1, a - b + period);
      }
    }
  }

  /**
   * No continuous timer of the list is late by its period or more. Otherwise the source
   * asserts an incorrect time scale or a short period when it arms that timer again.
   */
  predicate OnTime(list: seq<nat>, timers: seq<Timer>, time: nat) {
    forall j | 0 <= j < |list| && list[j] < |timers| && timers[list[j]].continuous ::
      time < timers[list[j]].deadline + timers[list[j]].period
  }

  /** A reading of the counter: the comparison by distance finds the due timers. */
  lemma ReadingIsReachable(
    list: seq<nat>, timers: seq<Timer>, lives: seq<Life>, clock: nat, passed: nat, now: nat, overflow: u32, longest: nat)
    requires Sound(list, [], None, timers, lives, clock, passed, now, overflow, longest)
    requires Measurable(overflow) && 0 < longest <= overflow / 2 && OnTime(list, timers, now)
    ensures Known(list, timers) && Ordered(list, timers)
    ensures forall j | 0 <= j < |list| ::
              && (Distance(now % (overflow + 1), timers[list[j]].timestamp, overflow) < overflow / 2 <==>
                  timers[list[j]].deadline <= now)
              && now + longest < timers[list[j]].deadline + overflow / 2
    ensures InReach(list, timers, now, longest, overflow / 2, true)
  {
    forall j | 0 <= j < |list|
      ensures Distance(now % (overflow + 1), timers[list[j]].timestamp, overflow) < overflow / 2 <==>
              timers[list[j]].deadline <= now
      ensures now + longest < timers[list[j]].deadline + overflow / 2
    {
      assert InUse(list[j], timers, [], None);
      DistanceCompares(now, timers[list[j]].deadline, overflow);
    }
  }

  lemma CalledForOldDeadlines(
    calls: seq<Call>, calls': seq<Call>, order: seq<nat>, timers: seq<Timer>, timers': seq<Timer>, taken: seq<nat>,
    from: nat, to: nat)
    requires Extracted(timers, timers', taken) && CalledInOrder(calls, calls', order, timers', from, to)
    ensures CalledInOrder(calls, calls', order, timers, from, to)
  {
  }

  /** No continuous timer is late by its period, and all can be compared with the deadlines set in this pass. */
  ghost predicate InReach(list: seq<nat>, timers: seq<Timer>, now: nat, longest: nat, span: nat, late: bool)
    requires Known(list, timers)
  {
    forall j | 0 <= j < |list| ::
      && (timers[list[j]].continuous ==> now < timers[list[j]].deadline + timers[list[j]].period)
      && now + longest < timers[list[j]].deadline
           + (if timers[list[j]].deadline <= now then timers[list[j]].period else 0) + span
      && (late || now <= timers[list[j]].deadline)
  }

  lemma DueInReach(list: seq<nat>, timers: seq<Timer>, k: nat, now: nat, longest: nat, span: nat, late: bool)
    requires Known(list, timers) && DueAt(list, timers, k, now) && InReach(list, timers, now, longest, span, late)
    ensures Reachable(list, timers, k, now, longest, span)
    ensures Known(Reversed(list[..k]), timers)
    ensures !late ==> forall j | 0 <= j < |Reversed(list[..k])| :: timers[Reversed(list[..k])[j]].deadline == now
  {
    ReversedAt(list[..k]);
    forall j | 0 <= j < k
      ensures Reversed(list[..k])[j] == list[k - 1 - j]
    {
    }
  }

  /** An active continuous timer has met the deadlines of its grid one after the other. */
  lemma MetGrid(
    list: seq<nat>, timers: seq<Timer>, lives: seq<Life>, calls: seq<Call>, clock: nat, passed: nat, now: nat,
    overflow: u32, longest: nat, id: nat)
    requires Sound(list, [], None, timers, lives, clock, passed, now, overflow, longest) && Logged(lives, calls)
    requires id < |timers| && id < |lives| && lives[id].active
    ensures 0 < timers[id].period && timers[id].enabled && id in list && lives[id].since <= |calls|
    ensures var met := Met(calls[lives[id].since..], id);
            && (forall k | 0 <= k < |met| :: met[k] == lives[id].base + (k + 1) * timers[id].period)
            && timers[id].deadline == lives[id].base + (|met| + 1) * timers[id].period
  {
    hide Ordered, Distinct;
    var life, period := lives[id], timers[id].period;
    assert InUse(id, timers, [], None);
    forall k | 0 <= k < |life.fires|
      ensures life.fires[k] == life.base + (k + 1) * period
    {
      SteadyIsPeriodic(life, period, k);
    }
    assert (|life.fires| + 1) * period == |life.fires| * period + period;
  }

  /** In the periodic mode these are all deadlines up to now. */
  lemma MetEveryDeadline(
    list: seq<nat>, timers: seq<Timer>, lives: seq<Life>, calls: seq<Call>, clock: nat, now: nat, overflow: u32,
    longest: nat, id: nat)
    requires Sound(list, [], None, timers, lives, clock, now, now, overflow, longest) && Logged(lives, calls)
    requires id < |timers| && id < |lives| && lives[id].active
    ensures 0 < timers[id].period && lives[id].base <= now && lives[id].since <= |calls|
    ensures |Met(calls[lives[id].since..], id)| == (now - lives[id].base) / timers[id].period
  {
    MetGrid(list, timers, lives, calls, clock, now, now, overflow, longest, id);
    var base, period, met := lives[id].base, timers[id].period, |Met(calls[lives[id].since..], id)|;
    ListedTimer(list, timers, lives, clock, now, now, overflow, longest, id);
    assert (met + 1) * period == met * period + period;
    MulMonotone(0, met, period);
    DivModUnique(now - base, period, met, now - base - met * period);
  }

  lemma ListedTimer(
    list: seq<nat>, timers: seq<Timer>, lives: seq<Life>, clock: nat, passed: nat, now: nat, overflow: u32, longest: nat,
    id: nat)
    requires Sound(list, [], None, timers, lives, clock, passed, now, overflow, longest)
    requires id < |timers| && timers[id].enabled
    ensures passed < timers[id].deadline <= now + timers[id].period && 1 <= timers[id].period <= longest
    ensures timers[id].timestamp == timers[id].deadline % (overflow + 1)
  {
    assert InUse(id, timers, [], None);
  }

  lemma ListedInReach(
    list: seq<nat>, timers: seq<Timer>, lives: seq<Life>, clock: nat, passed: nat, now: nat, overflow: u32, longest: nat,
    id: nat)
    requires Sound(list, [], None, timers, lives, clock, passed, now, overflow, longest)
    requires id < |timers| && timers[id].enabled
    ensures now + longest < timers[id].deadline + overflow / 2
  {
    assert InUse(id, timers, [], None);
  }

  /** The distance to a deadline ahead is the number of ticks; behind it, a whole counter period more. */
  lemma DistanceToDeadline(target: nat, now: nat, overflow: u32)
    requires Measurable(overflow) && target <= now + overflow / 2 && now < target + overflow / 2
    ensures Distance(target % (overflow + 1), now % (overflow + 1), overflow) ==
              target - now + (if now <= target then 0 else overflow + 1)
  {
    DistanceIsModular(target % (overflow + 1), now % (overflow + 1), overflow);
    DifferenceOfRemainders(target, now, overflow + 1);
    DivModUnique(target - now, overflow + 1, if now <= target then 0 else -1,
                 target - now + (if now <= target then 0 else overflow + 1));
  }

  /** Difference of 32-bit words. */
  function Elapsed(period: nat, delta: u32): u32 {
    (period - delta) % TWO_32
  }

  lemma ElapsedIs(period: nat, deadline: nat, now: nat, delta: u32, overflow: u32)
    requires Measurable(overflow) && period <= overflow / 2
    requires deadline <= now + period && now < deadline + overflow / 2
    requires delta == deadline - now + (if now <= deadline then 0 else overflow + 1)
    ensures Elapsed(period, delta) == now - (deadline - period) <==> now <= deadline || overflow + 1 == TWO_32
  {
    if now <= deadline {
      DivModUnique(period - delta, TWO_32, 0, period - delta);
    } else {
      DivModUnique(period - delta, TWO_32, -1, period - delta + TWO_32);
    }
  }

  function NewTimer(period: nat, continuous: bool, now: nat, overflow: u32, clock: nat): Timer {
    Timer(period, continuous, now % (overflow + 1), false, false, now, clock)
  }

  lemma OrderedLonger(list: seq<nat>, timers: seq<Timer>, more: seq<Timer>)
    requires Known(list, timers) && Ordered(list, timers) && timers <= more
    ensures Known(list, more) && Ordered(list, more)
  {
  }

  lemma CreatedSound(
    list: seq<nat>, timers: seq<Timer>, lives: seq<Life>, clock: nat, passed: nat, now: nat, overflow: u32, longest: nat,
    period: nat, continuous: bool)
    requires Sound(list, [], None, timers, lives, clock, passed, now, overflow, longest) && 1 <= period <= longest
    ensures Sound(list, [], None, timers + [NewTimer(period, continuous, now, overflow, clock)],
                  lives + [Life(now, 0, [], false)], clock + 1, passed, now, overflow, longest)
  {
    hide Distinct;
    var more := timers + [NewTimer(period, continuous, now, overflow, clock)];
    OrderedLonger(list, timers, more);
    hide Ordered;
    forall i | 0 <= i < |more| && InUse(i, more, [], None)
      ensures i < |timers| && InUse(i, timers, [], None)
    {
    }
    assert forall i | 0 <= i < |timers| && InUse(i, timers, [], None) :: InUse(i, more, [], None);
  }

  lemma EarliestInFront(
    list: seq<nat>, timers: seq<Timer>, lives: seq<Life>, clock: nat, passed: nat, now: nat, overflow: u32, longest: nat)
    requires Sound(list, [], None, timers, lives, clock, passed, now, overflow, longest)
    ensures Known(list, timers)
    ensures forall k | 0 <= k < |list| :: timers[list[0]].deadline <= timers[list[k]].deadline
  {
    assert forall k | 0 < k < |list| :: Before(timers[list[0]], timers[list[k]]);
  }

  lemma SoundIsFlagged(
    list: seq<nat>, timers: seq<Timer>, lives: seq<Life>, clock: nat, passed: nat, now: nat, overflow: u32, longest: nat)
    requires Sound(list, [], None, timers, lives, clock, passed, now, overflow, longest)
    ensures Flagged(list, [], None, timers)
  {
  }

  lemma StampsBelow(
    list: seq<nat>, pending: seq<nat>, running: Option<nat>, timers: seq<Timer>, lives: seq<Life>,
    clock: nat, passed: nat, now: nat, overflow: u32, longest: nat)
    requires Sound(list, pending, running, timers, lives, clock, passed, now, overflow, longest)
    ensures Stamps(timers, clock)
  {
  }

  lemma ExpiredIsNotArmed(
    list: seq<nat>, pending: seq<nat>, running: Option<nat>, timers: seq<Timer>, lives: seq<Life>,
    clock: nat, passed: nat, now: nat, overflow: u32, longest: nat, id: nat)
    requires Sound(list, pending, running, timers, lives, clock, passed, now, overflow, longest) && id < |timers|
    ensures timers[id].enabled ==> id !in pending
  {
  }

  lemma TakenAreArmed(
    list: seq<nat>, timers: seq<Timer>, lives: seq<Life>, clock: nat, passed: nat, now: nat, overflow: u32,
    longest: nat, k: nat)
    requires Sound(list, [], None, timers, lives, clock, passed, now, overflow, longest) && k <= |list|
    ensures forall i | i in list[..k] :: i < |timers| && timers[i].enabled
    ensures forall i :: i in Reversed(list[..k]) <==> i in list[..k]
  {
    ReversedAt(list[..k]);
    forall i | i in list[..k]
      ensures i < |timers| && timers[i].enabled
    {
      var j :| 0 <= j < k && list[..k][j] == i;
      assert list[j] == i;
    }
  }

  lemma ListedBeyond(
    list: seq<nat>, timers: seq<Timer>, lives: seq<Life>, clock: nat, passed: nat, now: nat, overflow: u32, longest: nat)
    requires Sound(list, [], None, timers, lives, clock, passed, now, overflow, longest)
    ensures forall k | 0 <= k < |list| && list[k] < |timers| :: passed < timers[list[k]].deadline
  {
  }

  /** No arming with a deadline before that of every timer in the list waits. */
  lemma NoneWaits(
    list: seq<nat>, timers: seq<Timer>, lives: seq<Life>, armings: seq<Arming>, calls: seq<Call>,
    clock: nat, passed: nat, now: nat, overflow: u32, longest: nat, time: nat)
    requires Sound(list, [], None, timers, lives, clock, passed, now, overflow, longest)
    requires Ledger(armings, timers, [], calls)
    requires forall k | 0 <= k < |list| && list[k] < |timers| :: time <= timers[list[k]].deadline
    ensures forall s | 0 <= s < |armings| && armings[s].deadline < time :: armings[s].fate != Waiting
  {
    hide Ordered, Distinct;
    forall s | 0 <= s < |armings| && armings[s].fate == Waiting
      ensures time <= armings[s].deadline
    {
      assert timers[armings[s].id].enabled;
      var k :| 0 <= k < |list| && list[k] == armings[s].id;
    }
  }

  lemma SoundOrder(
    list: seq<nat>, timers: seq<Timer>, lives: seq<Life>, clock: nat, passed: nat, now: nat, overflow: u32, longest: nat)
    requires Sound(list, [], None, timers, lives, clock, passed, now, overflow, longest)
    ensures Known(list, timers) && Ordered(list, timers) && |lives| == |timers|
  {
  }

  /** One tick behind the earliest deadline is close enough to the current time to be compared. */
  lemma HeadInReach(
    list: seq<nat>, timers: seq<Timer>, lives: seq<Life>, clock: nat, passed: nat, now: nat, overflow: u32, longest: nat)
    requires Sound(list, [], None, timers, lives, clock, passed, now, overflow, longest)
    requires list != [] && longest <= overflow / 2
    ensures Known(list, timers) && passed < timers[list[0]].deadline
    ensures -(overflow + 1 - overflow / 2) <= now - (timers[list[0]].deadline + 1) < overflow / 2
  {
    ListedTimer(list, timers, lives, clock, passed, now, overflow, longest, list[0]);
    assert InUse(list[0], timers, [], None);
  }

  class Factory {
    const tickless: bool
    const overflow: u32
    // Longest period of the timers
    const longest: nat

    // Absolute time; the hardware shows its remainder in the tickless mode
    var now: nat
    // Interrupts counted in the periodic mode
    var counter: u32
    // Hardware time of the next interrupt in the tickless mode
    var waketime: u32
    var list: seq<nat>
    var pending: seq<nat>
    var running: Option<nat>
    var timers: seq<Timer>
    var calls: seq<Call>
    // Number of insertions, the numbers of the next stamp
    var clock: nat

    ghost var lives: seq<Life>
    ghost var armings: seq<Arming>
    // Time at which the expired timers were taken from the list
    ghost var passed: nat

    /** `factoryInit` and `factoryInitTickless`; a tickless counter with `resolution` values shows the time. */
    constructor (tickless: bool, resolution: nat, longest: nat, time: nat)
      requires if tickless then 2 <= resolution <= TWO_31 || resolution == TWO_32 else resolution == TWO_32 && time == 0
      requires 0 < longest <= (resolution - 1) / 2
      ensures Idle() && timers == [] && now == time && calls == []
      ensures this.tickless == tickless && overflow == resolution - 1 && this.longest == longest
    {
      this.tickless, this.longest, overflow := tickless, longest, resolution - 1;
      now, counter, waketime, passed := time, 0, (resolution - 1) / 2, time;
      list, pending, running, timers, calls, clock, lives, armings := [], [], None, [], [], 0, [], [];
    }

    ghost predicate Configured()
      reads this
    {
      && Measurable(overflow) && 0 < longest <= overflow / 2
      && (if tickless then true else overflow + 1 == TWO_32 && counter == now % TWO_32)
      && passed <= now
      && Logged(lives, calls) && (tickless || Exact(calls))
      && |armings| == clock && Ledger(armings, timers, pending, calls)
    }

    ghost predicate Valid()
      reads this
    {
      Configured() && (tickless || passed == now)
      && Sound(list, pending, running, timers, lives, clock, passed, now, overflow, longest)
    }

    ghost predicate Idle()
      reads this
    {
      Valid() && pending == [] && running == None
    }

    /** `tmrInit`, with the period and the mode that the setters give. */
    method Create(period: nat, continuous: bool) returns (id: nat)
      requires Idle() && 1 <= period <= longest
      modifies this`timers, this`lives, this`armings, this`clock
      ensures Idle() && id == |old(timers)| && |timers| == id + 1 && timers[..id] == old(timers)
      ensures timers[id].period == period && timers[id].continuous == continuous && CanEnable(id)
    {
      hide Sound, Ledger, Logged, Exact;
      id := |timers|;
      CreatedSound(list, timers, lives, clock, passed, now, overflow, longest, period, continuous);
      LedgerCreated(armings, timers, pending, calls, NewTimer(period, continuous, now, overflow, clock));
      armings := armings + [Arming(|timers|, now, Cancelled)];
      timers := timers + [NewTimer(period, continuous, now, overflow, clock)];
      LoggedNewLife(lives, calls, Life(now, 0, [], false));
      lives := lives + [Life(now, 0, [], false)];
      clock := clock + 1;
    }

    /** `insertTimer`: in front of the first timer with the same or a later timestamp. */
    method InsertTimer(id: nat) returns (ghost k: nat)
      requires Measurable(overflow) && Known(list, timers) && id < |timers|
      requires Wrapped(timers[id], overflow)
      requires forall i | 0 <= i < |list| ::
                 && Wrapped(timers[list[i]], overflow)
                 && Near(timers[list[i]].deadline, timers[id].deadline, overflow / 2)
      modifies this`list
      ensures k <= |old(list)| && list == old(list)[..k] + [id] + old(list)[k..]
      ensures forall i | 0 <= i < k :: timers[old(list)[i]].deadline < timers[id].deadline
      ensures k < |old(list)| ==> timers[id].deadline <= timers[old(list)[k]].deadline
    {
      hide Distance, Wrapped;
      var timestamp := timers[id].timestamp;
      var current := 0;
      while current < |list|
        invariant list == old(list) && current <= |list|
        invariant forall i | 0 <= i < current :: timers[list[i]].deadline < timers[id].deadline
      {
        WrappedCompares(timers[list[current]], timers[id], overflow);
        if Distance(timers[list[current]].timestamp, timestamp, overflow) < overflow / 2 {
          break;
        }
        current := current + 1;
      }
      k := current;
      list := list[..current] + [id] + list[current..];
    }

    /** `removeTimer`. */
    method RemoveTimer(id: nat)
      modifies this`list
      ensures id !in old(list) ==> list == old(list)
      ensures id in old(list) ==>
                exists k | 0 <= k < |old(list)| && old(list)[k] == id && id !in old(list)[..k] ::
                  list == old(list)[..k] + old(list)[k + 1..]
    {
      var current := 0;
      while current < |list| && list[current] != id
        invariant list == old(list) && current <= |list| && id !in list[..current]
      {
        current := current + 1;
      }
      if current < |list| {
        list := list[..current] + list[current + 1..];
      }
    }

    /** Value of the counter; in the tickless mode time has gone on, but all deadlines can still be compared. */
    method ReadCounter(limit: nat) returns (value: u32)
      requires Valid() && now <= limit
      modifies this`now
      ensures Valid() && old(now) <= now <= limit && value == now % (overflow + 1)
      ensures !tickless ==> now == old(now)
    {
      if tickless {
        var time: nat := *;
        if now <= time <= limit && Prompt(timers, pending, running, time, longest, overflow / 2) {
          now := time;
        }
        value := now % (overflow + 1);
      } else {
        value := counter;
      }
    }

    predicate CanEnable(id: nat)
      reads this
    {
      id < |timers| && !timers[id].enabled && !timers[id].scheduled && id !in pending
    }

    /** A timer with a new deadline enters the list. */
    method Arm(id: nat, timer: Timer, running': Option<nat>, ghost life: Life)
      requires Valid()
      requires Armable(timer, running, running', timers, pending, id, clock, passed, now, overflow, longest, life)
      requires life.since <= |calls| && life.fires == Met(calls[life.since..], id)
      modifies this`timers, this`list, this`clock, this`lives, this`armings, this`running
      ensures Valid() && running == running'
      ensures clock == old(clock) + 1 && Stamps(timers, clock)
      ensures armings == old(armings) + [Arming(id, timer.deadline, Waiting)]
      ensures timers == old(timers)[id := timer] && lives == old(lives)[id := life]
    {
      hide Sound, Ledger, Logged, Exact, Met;
      ghost var before, earlier := timers, list;
      Insertable(list, pending, running, timers, lives, clock, passed, now, overflow, longest, id, timer);
      timers := timers[id := timer];
      ghost var k := InsertTimer(id);
      EntersSound(earlier, pending, running, before, lives, clock, passed, now, overflow, longest,
                  id, k, timer, running', life);
      LedgerArmed(armings, before, pending, calls, id, timer, id);
      armings := armings + [Arming(id, timer.deadline, Waiting)];
      LoggedLife(lives, calls, id, life);
      clock := clock + 1;
      StampsBelow(list, pending, running', timers, lives[id := life], clock, passed, now, overflow, longest);
      lives := lives[id := life];
      running := running';
    }

    /** `tmrEnable` and `tmrEnableTickless`. */
    method Enable(id: nat, limit: nat)
      requires Valid() && CanEnable(id) && now <= limit
      modifies this`now, this`timers, this`list, this`clock, this`lives, this`armings, this`running, this`waketime
      ensures Valid() && old(now) <= now <= limit && (!tickless ==> now == old(now))
      ensures running == old(running) && |timers| == |old(timers)| && |lives| == |old(lives)|
      ensures timers[id].enabled && timers[id].deadline == now + timers[id].period
      ensures timers == old(timers)[id := timers[id]] && timers[id].period == old(timers)[id].period
      ensures timers[id].continuous == old(timers)[id].continuous && !timers[id].scheduled
      // The stamps order the timers as they were armed
      ensures timers[id].stamp == old(clock) && clock == old(clock) + 1 && Stamps(timers, clock)
      ensures armings == old(armings) + [Arming(id, timers[id].deadline, Waiting)]
      ensures lives == old(lives)[id := Life(now, |calls|, [], true)]
      ensures tickless && list != [] && list[0] == id ==> waketime == (timers[id].deadline + 1) % (overflow + 1)
    {
      hide Sound, Advance, Ledger, Stamps;
      var value := ReadCounter(limit);
      SoundTimer(list, pending, running, timers, lives, clock, passed, now, overflow, longest, id);
      var timer := timers[id];
      timer := timer.(
        timestamp := Advance(value, timer.period, overflow),
        deadline := now + timer.period,
        stamp := clock,
        enabled := true);
      AdvanceIsModular(now, timer.period, overflow);
      Arm(id, timer, running, Life(now, |calls|, [], true));
      if tickless && list != [] && list[0] == id {
        waketime := Advance(timer.timestamp, 1, overflow);
        AdvanceIsModular(timer.deadline, 1, overflow);
      }
    }

    /** `tmrDisable`. */
    method Disable(id: nat)
      requires Valid() && id < |timers|
      modifies this`timers, this`list, this`lives, this`armings
      ensures Valid() && timers == old(timers)[id := Disabled(old(timers)[id])]
      ensures armings == Revoked(old(armings), old(timers)[id])
      ensures |lives| == |old(lives)| && id < |lives|
      ensures lives == old(lives)[id := old(lives)[id].(active := false)]
    {
      hide Sound, Ledger;
      ghost var earlier, before := list, timers;
      SoundTimer(list, pending, running, timers, lives, clock, passed, now, overflow, longest, id);
      if timers[id].enabled {
        timers := timers[id := timers[id].(enabled := false)];
        RemoveTimer(id);
      }
      timers := timers[id := timers[id].(scheduled := false)];
      assert timers == before[id := Disabled(before[id])];
      DisabledSound(earlier, pending, running, before, lives, clock, passed, now, overflow, longest, id, list);
      ExpiredIsNotArmed(earlier, pending, running, before, lives, clock, passed, now, overflow, longest, id);
      LedgerDisabled(armings, before, pending, calls, id, id + 1);
      armings := Revoked(armings, before[id]);
      lives := lives[id := lives[id].(active := false)];
    }

    /** Environment: one action of a callback or of a task; it leaves timer `keep` alone. */
    method Action(limit: nat, keep: nat)
      requires Valid() && now <= limit
      modifies this`now, this`timers, this`list, this`clock, this`lives, this`armings, this`running, this`waketime
      ensures Valid() && old(now) <= now <= limit && (!tickless ==> now == old(now))
      ensures running == old(running) && Undisturbed(old(timers), timers, pending)
      ensures |lives| == |old(lives)| && Recorded(old(armings), armings, keep)
      ensures keep < |timers| && keep < |old(lives)| ==> Untouched(old(timers), timers, old(lives), lives, keep)
    {
      hide Sound, Ledger;
      RecordedStill(armings, keep);
      var id: nat, enable: bool := *, *;
      if id != keep && id < |timers| {
        if !enable {
          ExpiredIsNotArmed(list, pending, running, timers, lives, clock, passed, now, overflow, longest, id);
          LedgerDisabled(armings, timers, pending, calls, id, keep);
          Disable(id);
        } else if CanEnable(id) {
          Enable(id, limit);
        }
      }
    }

    /** Environment: a callback, or the tasks between two interrupts. */
    method Callback(limit: nat, keep: nat)
      requires Valid() && now <= limit
      modifies this`now, this`timers, this`list, this`clock, this`lives, this`armings, this`running, this`waketime
      ensures Valid() && old(now) <= now <= limit && (!tickless ==> now == old(now))
      ensures running == old(running) && Undisturbed(old(timers), timers, pending)
      ensures |lives| == |old(lives)| && Recorded(old(armings), armings, keep)
      ensures keep < |timers| && keep < |old(lives)| ==> Untouched(old(timers), timers, old(lives), lives, keep)
    {
      hide Sound, Ledger, Recorded;
      RecordedStill(armings, keep);
      var actions: nat := *;
      while 0 < actions
        invariant Valid() && old(now) <= now <= limit && (!tickless ==> now == old(now))
        invariant running == old(running) && Undisturbed(old(timers), timers, pending)
        invariant |lives| == |old(lives)| && Recorded(old(armings), armings, keep)
        invariant keep < |timers| && keep < |old(lives)| ==> Untouched(old(timers), timers, old(lives), lives, keep)
      {
        ghost var before := armings;
        Action(limit, keep);
        RecordedTwice(old(armings), before, armings, keep);
        actions := actions - 1;
      }
    }

    /** A continuous timer is armed again after its callback. */
    method ArmAgain(id: nat, value: u32)
      requires Valid() && running == Some(id) && value == passed % (overflow + 1)
      requires id < |timers| && timers[id].scheduled && (!tickless ==> timers[id].deadline == now)
      modifies this`timers, this`list, this`clock, this`lives, this`armings, this`running
      ensures Valid() && running == None && lives == old(lives) && |timers| == |old(timers)|
      ensures armings == old(armings) + [Arming(id, timers[id].deadline, Waiting)]
      ensures timers == old(timers)[id := timers[id]] && timers[id].deadline == old(timers)[id].deadline + timers[id].period
      ensures timers[id].period == old(timers)[id].period && timers[id].continuous == old(timers)[id].continuous
    {
      hide Sound, Advance, Distance, Ledger, Stamps;
      RunningTimer(list, pending, timers, lives, clock, passed, now, overflow, longest, id);
      var timer := timers[id];
      assert !timer.enabled;
      AdvanceIsModular(timer.deadline, timer.period, overflow);
      if tickless {
        timer := timer.(timestamp := Advance(timer.timestamp, timer.period, overflow));
        DistanceCompares(passed, timer.deadline + timer.period, overflow);
        assert overflow / 2 <= Distance(value, timer.timestamp, overflow);
      } else {
        timer := timer.(timestamp := Advance(counter, timer.period, overflow));
      }
      timer := timer.(enabled := true, deadline := timer.deadline + timer.period, stamp := clock);
      Arm(id, timer, None, lives[id]);
    }

    /** Calls the next expired timer. */
    method CallNext(value: u32, limit: nat, keep: nat)
      requires Valid() && running == None && pending != [] && now <= limit && value == passed % (overflow + 1)
      requires pending[0] < |timers| && (!tickless ==> timers[pending[0]].deadline == now)
      modifies this`now, this`timers, this`list, this`clock, this`lives, this`armings, this`running, this`waketime
      modifies this`pending, this`calls
      ensures Valid() && running == None && old(now) <= now <= limit && (!tickless ==> now == old(now))
      ensures pending == old(pending)[1..] && Awaiting(old(timers), timers, pending)
      ensures calls == old(calls) + [CallOf(old(pending[0]), old(timers[pending[0]]), old(now))]
      ensures Persists(old(timers), old(lives), lives, keep) && Recorded(old(armings), armings, keep)
    {
      hide Valid, Recorded;
      var id := BeginCall(keep);
      ghost var called := armings;
      Callback(limit, keep);
      RecordedTwice(old(armings), called, armings, keep);
      called := armings;
      EndCall(id, value);
      RecordedFurther(old(armings), called, armings, keep);
    }

    /** The next expired timer leaves the queue, and its callback begins. */
    method BeginCall(keep: nat) returns (id: nat)
      requires Valid() && running == None && pending != []
      requires pending[0] < |timers| && (!tickless ==> timers[pending[0]].deadline == now)
      modifies this`lives, this`armings, this`running, this`pending, this`calls
      ensures Valid() && id == old(pending)[0] && running == Some(id) && pending == old(pending)[1..]
      ensures calls == old(calls) + [CallOf(id, timers[id], now)]
      ensures |old(lives)| == |timers| && lives == old(lives)[id := Fired(old(lives)[id], timers[id])]
      ensures Recorded(old(armings), armings, keep)
      ensures Known(old(pending), timers) && id !in pending
    {
      hide Sound, Ledger, Recorded, Logged, Exact;
      PendingTimer(list, pending, timers, lives, clock, passed, now, overflow, longest);
      CalledSound(list, pending, timers, lives, clock, passed, now, overflow, longest);
      id := pending[0];
      LoggedCall(lives, calls, CallOf(id, timers[id], now), timers[id]);
      LedgerCalled(armings, timers, pending, calls, now, keep);
      if !tickless {
        ExactCall(calls, CallOf(id, timers[id], now));
      }
      pending := pending[1..];
      running := Some(id);
      armings := armings[timers[id].stamp := Arming(id, timers[id].deadline, Called(|calls|))];
      calls := calls + [CallOf(id, timers[id], now)];
      lives := lives[id := Fired(lives[id], timers[id])];
    }

    /** The callback has returned; a timer that is still scheduled is armed again. */
    method EndCall(id: nat, value: u32)
      requires Valid() && running == Some(id) && value == passed % (overflow + 1)
      requires id < |timers| && (!tickless && timers[id].scheduled ==> timers[id].deadline == now)
      modifies this`timers, this`list, this`clock, this`lives, this`armings, this`running
      ensures Valid() && running == None && lives == old(lives) && |timers| == |old(timers)|
      ensures if old(timers)[id].scheduled then
                && timers == old(timers)[id := timers[id]]
                && timers[id].deadline == old(timers)[id].deadline + timers[id].period
                && timers[id].period == old(timers)[id].period
                && timers[id].continuous == old(timers)[id].continuous
                && armings == old(armings) + [Arming(id, timers[id].deadline, Waiting)]
              else timers == old(timers) && armings == old(armings)
    {
      hide Sound, Ledger, Logged, Exact;
      RunningTimer(list, pending, timers, lives, clock, passed, now, overflow, longest, id);
      if timers[id].scheduled {
        ArmAgain(id, value);
      } else {
        ReturnedSound(list, pending, id, timers, lives, clock, passed, now, overflow, longest);
        running := None;
      }
    }

    /** The timer at the front of the rest of the list is due at the counter value. */
    predicate IsDue(timer: Timer, value: u32)
      reads this
    {
      if tickless then Distance(value, timer.timestamp, overflow) < overflow / 2 else value == timer.timestamp
    }

    /** Takes the due timers from the list; `pending` collects them in reverse order. */
    method TakeDue(value: u32, ghost time: nat) returns (ghost due: nat)
      requires pending == [] && Known(list, timers) && Ordered(list, timers)
      requires forall k | 0 <= k < |list| ::
                 IsDue(timers[list[k]], value) <==> timers[list[k]].deadline <= time
      modifies this`list, this`pending, this`timers
      ensures due == CountDue(old(list), old(timers), time) && DueAt(old(list), old(timers), due, time)
      ensures list == old(list)[due..] && pending == Reversed(old(list)[..due])
      ensures Extracted(old(timers), timers, old(list)[..due])
    {
      OrderedDistinct(list, timers);
      ghost var k: nat := 0;
      var current := list;
      while current != [] && IsDue(timers[current[0]], value)
        invariant list == old(list) && k <= |list| && current == list[k..] && pending == Reversed(list[..k])
        invariant Extracted(old(timers), timers, list[..k])
        invariant forall i | 0 <= i < k :: old(timers)[list[i]].deadline <= time
      {
        ExtractedExtends(old(timers), timers, list, k);
        var timer := current[0];
        current := current[1..];
        timers := timers[timer := timers[timer].(enabled := false, scheduled := timers[timer].continuous)];
        pending := [timer] + pending;
        k := k + 1;
      }
      FirstUndue(list, old(timers), k, time);
      list := current;
      due := k;
    }

    /** Calls all expired timers. */
    method RunExpired(value: u32, limit: nat, keep: nat)
      requires Valid() && running == None && now <= limit && value == passed % (overflow + 1)
      requires Known(pending, timers)
      requires !tickless ==> forall k | 0 <= k < |pending| :: timers[pending[k]].deadline == now
      modifies this`now, this`timers, this`list, this`clock, this`lives, this`armings, this`running, this`waketime
      modifies this`pending, this`calls
      ensures Idle() && old(now) <= now <= limit && (!tickless ==> now == old(now))
      ensures CalledInOrder(old(calls), calls, old(pending), old(timers), old(now), now)
      ensures Persists(old(timers), old(lives), lives, keep) && SameSettings(old(timers), timers)
      ensures Recorded(old(armings), armings, keep)
    {
      hide Sound, Ledger, Recorded;
      RecordedStill(armings, keep);
      ghost var d: nat := 0;
      while pending != []
        invariant Valid() && running == None && old(now) <= now <= limit && (!tickless ==> now == old(now))
        invariant d <= |old(pending)| && pending == old(pending)[d..] && Awaiting(old(timers), timers, pending)
        invariant CalledInOrder(old(calls), calls, old(pending)[..d], old(timers), old(now), now)
        invariant Persists(old(timers), old(lives), lives, keep) && Recorded(old(armings), armings, keep)
        decreases |pending|
      {
        PendingTimer(list, pending, timers, lives, clock, passed, now, overflow, longest);
        ghost var before, time := calls, now;
        ghost var call, recorded := CallOf(pending[0], timers[pending[0]], now), armings;
        CallNext(value, limit, keep);
        RecordedTwice(old(armings), recorded, armings, keep);
        CalledExtends(old(calls), before, old(pending), d, old(timers), old(now), time, now, call);
        d := d + 1;
      }
      assert old(pending)[..d] == old(pending);
    }

    /** What the counter value tells about the timers of the list. */
    ghost predicate Tells(value: u32)
      reads this
    {
      && Known(list, timers) && InReach(list, timers, now, longest, overflow / 2, tickless)
      && forall j | 0 <= j < |list| :: IsDue(timers[list[j]], value) <==> timers[list[j]].deadline <= now
    }

    /** The due timers of a pass expire. */
    method Expire(value: u32, ghost earlier: nat) returns (ghost due: nat)
      requires Configured() && pending == [] && running == None && value == now % (overflow + 1)
      requires Sound(list, [], None, timers, lives, clock, passed, earlier, overflow, longest) && earlier <= now
      requires Tells(value)
      modifies this`list, this`pending, this`timers, this`passed
      ensures Valid() && passed == now && Known(old(list), old(timers))
      ensures due == CountDue(old(list), old(timers), now) <= |old(list)|
      ensures pending == Reversed(old(list)[..due]) && Known(pending, old(timers))
      ensures Extracted(old(timers), timers, old(list)[..due])
      ensures !tickless ==> forall k | 0 <= k < |pending| :: old(timers)[pending[k]].deadline == now
    {
      hide Sound, Ledger, Ordered, InReach, Reachable, DueAt, Extracted, CountDue, Reversed;
      SoundOrder(list, timers, lives, clock, passed, earlier, overflow, longest);
      ghost var queue, before := list, timers;
      due := TakeDue(value, now);
      DueInReach(queue, before, due, now, longest, overflow / 2, tickless);
      TakenAreArmed(queue, before, lives, clock, passed, earlier, overflow, longest, due);
      LedgerExtracted(armings, before, timers, queue[..due], pending, calls);
      ExtractedSound(queue, before, lives, clock, passed, earlier, overflow, longest, timers, due, now);
      passed := now;
    }

    /** Takes and calls the due timers of a pass at the current time. */
    method Pass(value: u32, ghost earlier: nat, limit: nat, keep: nat)
      requires Configured() && pending == [] && running == None && now <= limit && value == now % (overflow + 1)
      requires Sound(list, [], None, timers, lives, clock, passed, earlier, overflow, longest) && earlier <= now
      requires Tells(value)
      modifies this
      ensures Idle() && old(now) <= now <= limit && (!tickless ==> now == old(now))
      ensures passed == old(now) && Known(old(list), old(timers))
      ensures CalledInOrder(old(calls), calls, Reversed(old(list)[..CountDue(old(list), old(timers), old(now))]),
                            old(timers), old(now), now)
      ensures Persists(old(timers), old(lives), lives, keep) && SameSettings(old(timers), timers)
      ensures Recorded(old(armings), armings, keep)
    {
      hide Sound, Ledger, Recorded, CalledInOrder, Tells;
      ghost var due := Expire(value, earlier);
      ghost var order, expired := pending, timers;
      RunExpired(value, limit, keep);
      CalledForOldDeadlines(old(calls), calls, order, old(timers), expired, old(list)[..due], old(now), now);
    }

    /** `interruptHandler`. */
    method Interrupt(keep: nat)
      requires Idle() && !tickless
      modifies this
      ensures Idle() && now == old(now) + 1 && |lives| == |timers| && Known(old(list), old(timers))
      ensures old(calls) <= calls && forall a | |old(calls)| <= a < |calls| :: calls[a].id < |old(timers)|
      ensures CalledInOrder(old(calls), calls, Reversed(old(list)[..CountDue(old(list), old(timers), now)]),
                            old(timers), now, now)
      // The timers whose deadline is this tick are called in it, in the order in which they were armed
      ensures DueCalled(old(calls), calls, old(timers), now)
      ensures forall a | |old(calls)| <= a < |calls| :: calls[a].deadline == calls[a].time == now
      ensures forall a, b | |old(calls)| <= a < b < |calls| ::
                old(timers)[calls[a].id].stamp < old(timers)[calls[b].id].stamp
      ensures Persists(old(timers), old(lives), lives, keep) && SameSettings(old(timers), timers)
      ensures Recorded(old(armings), armings, keep)
      ensures forall s | 0 <= s < |armings| && armings[s].deadline <= now :: armings[s].fate != Waiting
    {
      hide Sound, Ledger, Recorded, Flagged, CalledInOrder, DueCalled, InReach, CountDue, Reversed, Ordered, Exact, Logged;
      TickIsReachable(list, timers, lives, clock, now, longest);
      ghost var earlier, queue, before := now, list, timers;
      SoundIsFlagged(list, timers, lives, clock, passed, now, overflow, longest);
      NextTick(now);
      counter := (counter + 1) % TWO_32;
      now := now + 1;
      Pass(counter, earlier, now, keep);
      SoundOrder(list, timers, lives, clock, passed, now, overflow, longest);
      ListedBeyond(list, timers, lives, clock, passed, now, overflow, longest);
      NoneWaits(list, timers, lives, armings, calls, clock, passed, now, overflow, longest, now + 1);
      DueAreCalled(old(calls), calls, queue, before, now, now, now);
      ghost var order := Reversed(queue[..CountDue(queue, before, now)]);
      ReversedAt(queue[..CountDue(queue, before, now)]);
      assert Known(order, before) by {
        assert forall k | 0 <= k < |order| :: order[k] in order;
      }
      CalledInTick(old(calls), calls, order, before, now);
      CalledAreKnown(old(calls), calls, before, now);
    }

    lemma NextTick(time: nat)
      ensures (time % TWO_32 + 1) % TWO_32 == (time + 1) % TWO_32
    {
    }

    /**
     * Runs the periodic mode for `count` ticks, with any tasks and callbacks that leave the
     * continuous timer `keep` alone. Since it was armed at `base` that timer has been called
     * at base + period, base + 2 * period and so on up to now, and at no other time.
     */
    method Ticks(count: nat, keep: nat)
      requires Idle() && !tickless && keep < |timers| && timers[keep].continuous
      requires keep < |lives| && lives[keep].active
      modifies this
      ensures Idle() && now == old(now) + count && |timers| == |old(timers)| && |lives| == |timers|
      ensures old(calls) <= calls && old(lives[keep].since) <= |old(calls)|
      ensures lives[keep].active && lives[keep].base == old(lives[keep].base) <= now
      ensures lives[keep].since == old(lives[keep].since)
      ensures 0 < timers[keep].period == old(timers[keep].period)
      ensures var times := Times(calls[lives[keep].since..], keep);
              && |times| == (now - lives[keep].base) / timers[keep].period
              && forall k | 0 <= k < |times| :: times[k] == lives[keep].base + (k + 1) * timers[keep].period
    {
      hide Sound, CalledInOrder, DueCalled;
      SoundOrder(list, timers, lives, clock, passed, now, overflow, longest);
      var left := count;
      while 0 < left
        invariant Idle() && now + left == old(now) + count && |timers| == |old(timers)| && |lives| == |timers|
        invariant old(calls) <= calls
        invariant timers[keep].continuous && timers[keep].period == old(timers[keep].period)
        invariant lives[keep].active && lives[keep].base == old(lives[keep].base)
        invariant lives[keep].since == old(lives[keep].since)
      {
        Callback(now, keep);
        Interrupt(keep);
        left := left - 1;
      }
      MetEveryDeadline(list, timers, lives, calls, clock, now, overflow, longest, keep);
      MetGrid(list, timers, lives, calls, clock, passed, now, overflow, longest, keep);
      ExactTimes(calls[lives[keep].since..], keep);
    }

    /**
     * `tmrGetValue`: ticks since the timer was armed. The value of an overdue timer is off by
     * the values that a shorter counter lacks, so it is right exactly for a 32-bit counter.
     */
    method GetValue(id: nat) returns (value: u32)
      requires Idle() && id < |timers|
      ensures !timers[id].enabled ==> value == 0
      ensures timers[id].enabled ==> passed < timers[id].deadline <= now + timers[id].period
      ensures timers[id].enabled ==>
                (value == now - (timers[id].deadline - timers[id].period) <==>
                 now <= timers[id].deadline || overflow + 1 == TWO_32)
    {
      hide Sound, Distance, Logged, Exact;
      if !timers[id].enabled {
        return 0;
      }
      ListedTimer(list, timers, lives, clock, passed, now, overflow, longest, id);
      ListedInReach(list, timers, lives, clock, passed, now, overflow, longest, id);
      var counter := if tickless then now % (overflow + 1) else counter;
      var delta := Distance(timers[id].timestamp, counter, overflow);
      DistanceToDeadline(timers[id].deadline, now, overflow);
      value := Elapsed(timers[id].period, delta);
      ElapsedIs(timers[id].period, timers[id].deadline, now, delta, overflow);
    }

    /** Sets the time of the next interrupt: one tick after the earliest deadline. */
    method SetWakeTime(value: u32)
      requires Idle() && tickless && value == passed % (overflow + 1)
      modifies this`waketime
      ensures Known(list, timers)
      ensures waketime == (if list != [] then timers[list[0]].deadline + 1 else passed + overflow / 2) % (overflow + 1)
    {
      hide Sound, Ordered, Logged, Exact;
      SoundIsFlagged(list, timers, lives, clock, passed, now, overflow, longest);
      if list != [] {
        ListedTimer(list, timers, lives, clock, passed, now, overflow, longest, list[0]);
        SetOverflow(timers[list[0]].timestamp, 1, timers[list[0]].deadline);
      } else {
        SetOverflow(value, overflow / 2, passed);
      }
    }

    /** The timestamp stands for the instant `time`. */
    method SetOverflow(timestamp: u32, step: nat, ghost time: nat)
      requires Measurable(overflow) && timestamp == time % (overflow + 1) && step <= overflow
      modifies this`waketime
      ensures waketime == (time + step) % (overflow + 1)
    {
      AdvanceIsModular(time, step, overflow);
      waketime := Advance(timestamp, step, overflow);
    }

    /** The wake time, which stands for the instant `wake`, is still ahead or has gone by. */
    method Overslept(value: u32, ghost wake: nat) returns (again: bool)
      requires Measurable(overflow)
      requires value == now % (overflow + 1) && waketime == wake % (overflow + 1)
      ensures -(overflow + 1 - overflow / 2) <= now - wake < overflow / 2 ==> (again <==> wake <= now)
    {
      if -(overflow + 1 - overflow / 2) <= now - wake < overflow / 2 {
        DistanceCompares(now, wake, overflow);
      }
      again := Distance(value, waketime, overflow) < overflow / 2;
    }

    /** One round of the handler: the due timers are called and the wake time is set. */
    method TicklessRound(value: u32, limit: nat, keep: nat) returns (value': u32, again: bool)
      requires Idle() && tickless && now <= limit && value == now % (overflow + 1)
      requires OnTime(list, timers, now)
      modifies this
      ensures Idle() && old(now) <= now <= limit && value' == now % (overflow + 1)
      ensures Known(list, timers) && Known(old(list), old(timers))
      ensures CalledInOrder(old(calls), calls, Reversed(old(list)[..CountDue(old(list), old(timers), old(now))]),
                            old(timers), old(now), now)
      ensures DueCalled(old(calls), calls, old(timers), old(now))
      ensures old(calls) <= calls
      ensures again ==> old(now) < now
      ensures list != [] ==> (again <==> timers[list[0]].deadline < now)
      ensures list != [] ==> waketime == (timers[list[0]].deadline + 1) % (overflow + 1)
      ensures Persists(old(timers), old(lives), lives, keep) && SameSettings(old(timers), timers)
      ensures Recorded(old(armings), armings, keep)
    {
      hide Sound, Ledger, Recorded, Flagged, CalledInOrder, DueCalled, InReach, CountDue, Reversed, Ordered, Logged;
      SoundIsFlagged(list, timers, lives, clock, passed, now, overflow, longest);
      ReadingIsReachable(list, timers, lives, clock, passed, now, overflow, longest);
      Pass(value, now, limit, keep);
      ghost var called := now;
      SetWakeTime(value);
      value' := ReadCounter(limit);
      CalledBefore(old(calls), calls, Reversed(old(list)[..CountDue(old(list), old(timers), old(now))]), old(timers),
                   old(now), called, now);
      DueAreCalled(old(calls), calls, old(list), old(timers), old(now), old(now), now);
      if list != [] {
        HeadInReach(list, timers, lives, clock, passed, now, overflow, longest);
      }
      ghost var wake := if list != [] then timers[list[0]].deadline + 1 else passed + overflow / 2;
      again := Overslept(value', wake);
    }

    /**
     * `interruptHandlerTickless`; all readings of the counter are taken before `limit`. The
     * handler is `late` when a reading comes a period or more after the deadline of a
     * continuous timer, which the source asserts against.
     */
    method InterruptTickless(limit: nat, keep: nat) returns (late: bool)
      requires Idle() && tickless && now <= limit
      modifies this
      ensures Idle() && old(now) <= now <= limit && Known(list, timers)
      ensures late <==> !OnTime(list, timers, now)
      ensures !late ==> forall k | 0 <= k < |list| :: now <= timers[list[k]].deadline
      ensures !late && list != [] ==> waketime == (timers[list[0]].deadline + 1) % (overflow + 1)
      ensures old(calls) <= calls
      // Armings whose deadline lies before now do not wait any more; those of `keep` have been called
      ensures Recorded(old(armings), armings, keep)
      ensures !late ==> forall s | 0 <= s < |armings| && armings[s].deadline < now :: armings[s].fate != Waiting
      ensures Persists(old(timers), old(lives), lives, keep) && SameSettings(old(timers), timers)
      // A continuous timer has been called for every deadline before now
      ensures !late && keep < |timers| && keep < |lives| && lives[keep].active ==>
                && lives[keep].since <= |calls|
                && var met := Met(calls[lives[keep].since..], keep);
                   && now <= lives[keep].base + (|met| + 1) * timers[keep].period
                   && forall k | 0 <= k < |met| :: met[k] == lives[keep].base + (k + 1) * timers[keep].period
    {
      hide Sound, Ledger, Recorded, Met, Logged, Exact, OnTime;
      late := Rounds(limit, keep);
      if !late {
        EarliestInFront(list, timers, lives, clock, passed, now, overflow, longest);
        NoneWaits(list, timers, lives, armings, calls, clock, passed, now, overflow, longest, now);
      }
      SoundOrder(list, timers, lives, clock, passed, now, overflow, longest);
      if keep < |timers| && keep < |lives| && lives[keep].active {
        MetGrid(list, timers, lives, calls, clock, passed, now, overflow, longest, keep);
      }
    }

    /** The loop of `interruptHandlerTickless`. */
    method Rounds(limit: nat, keep: nat) returns (late: bool)
      requires Idle() && tickless && now <= limit
      modifies this
      ensures Idle() && old(now) <= now <= limit
      ensures late <==> !OnTime(list, timers, now)
      ensures !late && list != [] ==>
                list[0] < |timers| && now <= timers[list[0]].deadline
                && waketime == (timers[list[0]].deadline + 1) % (overflow + 1)
      ensures old(calls) <= calls && Recorded(old(armings), armings, keep)
      ensures Persists(old(timers), old(lives), lives, keep) && SameSettings(old(timers), timers)
    {
      hide Sound, Ledger, Recorded, CalledInOrder, DueCalled, InReach, CountDue, Reversed, Ordered, Met, Logged, OnTime;
      var value := ReadCounter(limit);
      late := !OnTime(list, timers, now);
      var again := true;
      RecordedStill(armings, keep);
      while again && !late
        invariant Idle() && old(now) <= now <= limit && value == now % (overflow + 1)
        invariant Persists(old(timers), old(lives), lives, keep) && SameSettings(old(timers), timers)
        invariant old(calls) <= calls && Recorded(old(armings), armings, keep)
        invariant late <==> !OnTime(list, timers, now)
        invariant !again && list != [] ==>
                    list[0] < |timers| && now <= timers[list[0]].deadline
                    && waketime == (timers[list[0]].deadline + 1) % (overflow + 1)
        decreases again, limit - now
      {
        ghost var before := armings;
        value, again := TicklessRound(value, limit, keep);
        RecordedTwice(old(armings), before, armings, keep);
        late := !OnTime(list, timers, now);
      }
    }
  }
}
