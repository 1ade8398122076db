/** The gate as objects that are updated in place: leases that flip a flag, waiters whose
    future is set once, and the gate that owns the queue.  Every method is proved to
    perform exactly the step of the state machine in module Admission.  The ghost field
    `state` is the machine's state; `Coupled` ties each real field to it.

    `acquire` suspends while it waits, so it appears here as its atomic sections: `Enter`,
    and then one of `Resumed`, `TimedOut` and `WasCancelled`. */
module AdmissionGate {
  import opened Admission

  datatype FutureState = Unset | Result(lease: Lease) | Dropped

  /** Either an immediate lease, or a place in the queue, or a refusal with its status. */
  datatype Entered = Leased(lease: Lease) | Queued(waiter: QueuedWaiter) | Refused(status: nat)

  datatype Wakeup = Returned(lease: Lease) | Raised(status: nat)

  class Lease {
    const gate: RuntimeGate
    ghost const id: nat
    var released: bool

    constructor (gate: RuntimeGate, ghost id: nat)
      ensures this.gate == gate && this.id == id && !released
    {
      this.gate := gate;
      this.id := id;
      released := false;
    }

    /** Only the first call reaches the gate. */
    method Release()
      requires gate.Coupled() && this in gate.leases
      requires id in gate.state.live ==> gate.state.active > 0
      requires Ascending(gate.state.waiters) && QueuedPending(gate.state)
      modifies gate, gate.leases, gate.made
      ensures gate.Coupled() && gate.made == old(gate.made)
      ensures old(gate.leases) <= gate.leases && fresh(gate.leases - old(gate.leases))
      ensures gate.state == LeaseRelease(old(gate.state), id)
    {
      if released { return; }
      released := true;
      gate.state := gate.state.(live := gate.state.live - {id});
      assert gate.Coupled();
      gate.Release();
    }
  }

  class QueuedWaiter {
    const priority: Priority
    const sequence: nat
    var future: FutureState

    constructor (priority: Priority, sequence: nat)
      ensures this.priority == priority && this.sequence == sequence && future == Unset
    {
      this.priority := priority;
      this.sequence := sequence;
      future := Unset;
    }

    function SortKey(): Waiter { Waiter(Rank(priority), sequence) }
  }

  /** The abstract queue: sort keys are constant, so it does not read the heap. */
  ghost function Keys(ws: seq<QueuedWaiter>): (ks: seq<Waiter>)
    ensures |ks| == |ws|
    ensures forall i :: 0 <= i < |ws| ==> ks[i] == ws[i].SortKey()
  {
    seq(|ws|, i requires 0 <= i < |ws| => ws[i].SortKey())
  }

  lemma NotQueued(ws: seq<QueuedWaiter>, w: QueuedWaiter)
    requires w !in ws
    requires forall x :: x in ws && x.sequence == w.sequence ==> x == w
    ensures Without(Keys(ws), w.sequence) == Keys(ws)
  {
    forall k | k in Keys(ws) ensures k.sequence != w.sequence {
      var i :| 0 <= i < |ws| && Keys(ws)[i] == k;
      assert ws[i] in ws;
    }
    WithoutAbsent(Keys(ws), w.sequence);
  }

  lemma BestIs(ks: seq<Waiter>, at: nat)
    requires at < |ks|
    requires forall j :: 0 <= j < |ks| && j != at ==> Before(ks[at], ks[j])
    ensures Best(ks) == ks[at]
  {
    var b := Best(ks);
    var k :| 0 <= k < |ks| && ks[k] == b;
    assert ks[at] in ks;
  }

  lemma Ascend(ws: seq<QueuedWaiter>, at: nat)
    requires at < |ws| && Ascending(Keys(ws))
    ensures forall x :: x in ws && x.sequence == ws[at].sequence ==> x == ws[at]
  {
    forall x | x in ws && x.sequence == ws[at].sequence ensures x == ws[at] {
      var i :| 0 <= i < |ws| && ws[i] == x;
      var ks := Keys(ws);
      assert ks[i].sequence == ks[at].sequence;
    }
  }

  class RuntimeGate {
    const config: Config
    var waiters: seq<QueuedWaiter>
    var sequence: nat
    var active: int
    var acquiredTotal: nat
    var rejectedTotal: nat
    var timedOutTotal: nat
    var cancelledTotal: nat

    ghost var state: State
    ghost var leases: set<Lease>           // every lease issued
    ghost var made: set<QueuedWaiter>      // every waiter created

    ghost predicate Matches(f: FutureState, a: Future)
      reads this`leases
    {
      match f
      case Unset => a == Future.Pending
      case Result(l) => a == Future.Granted(l.id) && l in leases
      case Dropped => a == Future.Cancelled
    }

    ghost predicate Counters()
      reads this`active, this`sequence, this`acquiredTotal, this`rejectedTotal, this`timedOutTotal,
            this`cancelledTotal, this`state
    {
      && active == state.active
      && sequence == state.sequence
      && acquiredTotal == state.acquired
      && rejectedTotal == state.rejected
      && timedOutTotal == state.timedOut
      && cancelledTotal == state.cancelled
    }

    ghost predicate LeasesMatch(acquired: nat, live: set<nat>)
      reads this`leases, leases
    {
      && (forall l :: l in leases ==>
            l.gate == this && l.id < acquired && (l.released <==> l.id !in live))
      && (forall l, m :: l in leases && m in leases && l.id == m.id ==> l == m)
    }

    ghost predicate MadeMatch(sequence: nat, futures: map<nat, Future>)
      reads this`leases, this`made, made
    {
      && (forall w :: w in made ==>
            w.sequence < sequence && w.sequence in futures
            && Matches(w.future, futures[w.sequence]))
      && (forall v, w :: v in made && w in made && v.sequence == w.sequence ==> v == w)
    }

    ghost predicate QueueMatch(queue: seq<Waiter>)
      reads this`waiters, this`made
    {
      Keys(waiters) == queue && (forall w :: w in waiters ==> w in made)
    }

    ghost predicate Coupled()
      reads this, leases, made
    {
      && Counters()
      && LeasesMatch(state.acquired, state.live)
      && MadeMatch(state.sequence, state.futures)
      && QueueMatch(state.waiters)
    }

    constructor (config: Config)
      ensures Coupled() && leases == {} && made == {} && this.config == config
      ensures state == INITIAL && Inv(config, state)
    {
      this.config := config;
      waiters, sequence, active := [], 0, 0;
      acquiredTotal, rejectedTotal, timedOutTotal, cancelledTotal := 0, 0, 0, 0;
      state, leases, made := INITIAL, {}, {};
    }

    /** Takes the waiter off the queue; nothing happens when it is not there. */
    method RemoveWaiter(w: QueuedWaiter)
      requires Ascending(Keys(waiters))
      requires forall x :: x in waiters && x.sequence == w.sequence ==> x == w
      modifies this`waiters
      ensures Keys(waiters) == Without(Keys(old(waiters)), w.sequence)
      ensures forall x :: x in waiters ==> x in old(waiters)
    {
      var i := 0;
      while i < |waiters|
        invariant 0 <= i <= |waiters|
        invariant waiters == old(waiters)
        invariant forall j :: 0 <= j < i ==> waiters[j] != w
      {
        if waiters[i] == w {
          WithoutAt(Keys(waiters), i);
          waiters := waiters[..i] + waiters[i + 1..];
          assert Keys(waiters) == Keys(old(waiters))[..i] + Keys(old(waiters))[i + 1..];
          return;
        }
        i := i + 1;
      }
      NotQueued(waiters, w);
    }

    /** Removes and returns the pending waiter with the least sort key. */
    method NextWaiter() returns (next: QueuedWaiter?)
      requires Ascending(Keys(waiters))
      requires forall x :: x in waiters ==> x.future.Unset?
      modifies this`waiters
      ensures next == null <==> old(waiters) == []
      ensures next == null ==> waiters == []
      ensures next != null ==>
                && next in old(waiters)
                && next.SortKey() == Best(Keys(old(waiters)))
                && Keys(waiters) == Without(Keys(old(waiters)), next.sequence)
      ensures forall x :: x in waiters ==> x in old(waiters)
    {
      var live: seq<QueuedWaiter> := [];
      for i := 0 to |waiters|
        invariant live == waiters[..i]
      {
        assert waiters[i] in waiters;
        if waiters[i].future.Unset? { live := live + [waiters[i]]; }
      }
      assert live == waiters;
      if live == [] {
        waiters := [];
        return null;
      }
      var best, at := live[0], 0;
      for i := 1 to |live|
        invariant 0 <= at < i && best == live[at]
        invariant forall j :: 0 <= j < i && j != at ==> Before(best.SortKey(), live[j].SortKey())
      {
        assert Keys(live)[at].sequence < Keys(live)[i].sequence;
        if Before(live[i].SortKey(), best.SortKey()) {
          best, at := live[i], i;
        }
      }
      BestIs(Keys(live), at);
      Ascend(live, at);
      RemoveWaiter(best);
      return best;
    }

    /** A new lease on a slot that is counted already. */
    method Issue() returns (lease: Lease)
      requires LeasesMatch(acquiredTotal, state.live)
      modifies this`acquiredTotal, this`leases
      ensures fresh(lease) && lease.id == old(acquiredTotal) && !lease.released
      ensures leases == old(leases) + {lease} && acquiredTotal == old(acquiredTotal) + 1
      ensures LeasesMatch(acquiredTotal, state.live + {old(acquiredTotal)})
    {
      lease := new Lease(this, acquiredTotal);
      acquiredTotal := acquiredTotal + 1;
      leases := leases + {lease};
    }

    /** The freed slot becomes the waiter's lease. */
    method PassTo(waiter: QueuedWaiter)
      requires waiter in made && LeasesMatch(acquiredTotal, state.live)
      requires MadeMatch(state.sequence, state.futures)
      modifies this`acquiredTotal, this`leases, waiter
      ensures acquiredTotal == old(acquiredTotal) + 1
      ensures LeasesMatch(acquiredTotal, state.live + {old(acquiredTotal)})
      ensures leases >= old(leases) && (forall l :: l in leases && l !in old(leases) ==> fresh(l))
      ensures MadeMatch(state.sequence,
                        state.futures[waiter.sequence := Future.Granted(old(acquiredTotal))])
    {
      var lease := Issue();
      waiter.future := Result(lease);
    }

    /** The counters while a slot that is being given back is no longer counted. */
    ghost predicate OneSlotLess()
      reads this`active, this`sequence, this`acquiredTotal, this`rejectedTotal, this`timedOutTotal,
            this`cancelledTotal, this`state
    {
      && active == state.active - 1
      && sequence == state.sequence
      && acquiredTotal == state.acquired
      && rejectedTotal == state.rejected
      && timedOutTotal == state.timedOut
      && cancelledTotal == state.cancelled
    }

    /** Transfers the newly free slot directly to `waiter`. */
    method Transfer(waiter: QueuedWaiter)
      requires waiter in made && OneSlotLess()
      requires LeasesMatch(state.acquired, state.live) && MadeMatch(state.sequence, state.futures)
      requires QueueMatch(Without(state.waiters, waiter.sequence))
      modifies this`active, this`acquiredTotal, this`leases, this`state, waiter
      ensures Coupled()
      ensures old(leases) <= leases && (forall l :: l in leases && l !in old(leases) ==> fresh(l))
      ensures state == HandOver(old(state), waiter.sequence)
    {
      active := active + 1;
      PassTo(waiter);
      state := HandOver(state, waiter.sequence);
    }

    /** Nobody waits: the slot becomes free. */
    ghost method Free()
      requires OneSlotLess() && state.waiters == [] && waiters == []
      requires LeasesMatch(state.acquired, state.live) && MadeMatch(state.sequence, state.futures)
      modifies this`state
      ensures Coupled()
      ensures state == old(state).(active := active, releases := old(state).releases + 1)
    {
      state := state.(active := active, releases := state.releases + 1);
    }

    /** Stops counting a slot that comes back. */
    method Uncount()
      requires Coupled()
      modifies this`active
      ensures OneSlotLess() && QueueMatch(state.waiters)
      ensures LeasesMatch(state.acquired, state.live) && MadeMatch(state.sequence, state.futures)
    {
      active := active - 1;
    }

    /** Takes the waiter that is to have the slot off the queue, if anybody waits. */
    method TakeBest() returns (waiter: QueuedWaiter?)
      requires OneSlotLess() && QueueMatch(state.waiters)
      requires LeasesMatch(state.acquired, state.live) && MadeMatch(state.sequence, state.futures)
      requires Ascending(Keys(waiters)) && forall x :: x in waiters ==> x.future.Unset?
      modifies this`waiters
      ensures OneSlotLess()
      ensures LeasesMatch(state.acquired, state.live) && MadeMatch(state.sequence, state.futures)
      ensures waiter == null <==> state.waiters == []
      ensures waiter == null ==> waiters == []
      ensures waiter != null ==>
                && waiter in made && waiter.sequence == Best(state.waiters).sequence
                && QueueMatch(Without(state.waiters, waiter.sequence))
    {
      waiter := NextWaiter();
    }

    /** Gives the slot to the waiter taken off the queue, or frees it. */
    method Settle(waiter: QueuedWaiter?)
      requires OneSlotLess()
      requires LeasesMatch(state.acquired, state.live) && MadeMatch(state.sequence, state.futures)
      requires waiter == null ==> state.waiters == [] && waiters == []
      requires waiter != null ==> waiter in made && QueueMatch(Without(state.waiters, waiter.sequence))
      modifies this`active, this`acquiredTotal, this`leases, this`state, made
      ensures Coupled()
      ensures old(leases) <= leases && (forall l :: l in leases && l !in old(leases) ==> fresh(l))
      ensures waiter == null ==>
                state == old(state).(active := old(state).active - 1, releases := old(state).releases + 1)
      ensures waiter != null ==> state == HandOver(old(state), waiter.sequence)
    {
      if waiter == null {
        Free();
      } else {
        Transfer(waiter);
      }
    }

    /** A slot comes back: it becomes free, or the best waiter's. */
    method FreeOrTransfer()
      requires Coupled() && Ascending(Keys(waiters))
      requires forall x :: x in waiters ==> x.future.Unset?
      modifies this`active, this`waiters, this`acquiredTotal, this`leases, this`state, made
      ensures Coupled()
      ensures old(leases) <= leases && (forall l :: l in leases && l !in old(leases) ==> fresh(l))
      ensures old(state).waiters == [] ==>
                state == old(state).(active := old(state).active - 1,
                                     releases := old(state).releases + 1)
      ensures old(state).waiters != [] ==>
                state == HandOver(old(state), Best(old(state).waiters).sequence)
    {
      Uncount();
      var waiter := TakeBest();
      Settle(waiter);
    }

    /** A slot comes back. */
    method Release()
      requires Coupled() && Ascending(state.waiters) && QueuedPending(state) && state.active > 0
      modifies this, made
      ensures Coupled() && made == old(made)
      ensures old(leases) <= leases && (forall l :: l in leases && l !in old(leases) ==> fresh(l))
      ensures state == GateRelease(old(state))
    {
      ReleaseHandsOver(state);
      if active <= 0 { return; }
      QueuedAreUnset();
      FreeOrTransfer();
    }

    lemma QueuedAreUnset()
      requires MadeMatch(state.sequence, state.futures) && QueueMatch(state.waiters)
      requires Ascending(state.waiters) && QueuedPending(state)
      ensures forall x :: x in waiters ==> x.future.Unset?
    {
      forall x | x in waiters ensures x.future.Unset? {
        var i :| 0 <= i < |waiters| && waiters[i] == x;
        assert state.waiters[i] in state.waiters;
      }
    }

    /** The first atomic section of `acquire`. */
    method Enter(priority: Priority) returns (r: Entered)
      requires Coupled()
      modifies this, leases, made
      ensures Coupled() && old(leases) <= leases && old(made) <= made
      ensures (forall l :: l in leases && l !in old(leases) ==> fresh(l)) && fresh(made - old(made))
      ensures state == Next(config, old(state), Arrive(priority))
      ensures r.Leased? ==> r.lease in leases && !r.lease.released && r.lease.id in state.held
                            && r.lease.id == old(state).acquired
      ensures r.Queued? ==> r.waiter.sequence == old(state).sequence
                            && r.waiter in made && r.waiter.priority == priority
      ensures r.Refused? <==> state.rejected == old(state).rejected + 1
      ensures r.Refused? ==> r.status == if config.slots <= 0 then 503 else 429
      ensures r.Leased? <==> state.acquired == old(state).acquired + 1
    {
      if config.slots <= 0 {
        Refuse();
        return Refused(503);
      }
      if active < config.slots && waiters == [] {
        var lease := Take();
        return Leased(lease);
      }
      if config.queueLimit <= 0 || |waiters| >= config.queueLimit {
        Refuse();
        return Refused(429);
      }
      var waiter := Enqueue(priority);
      return Queued(waiter);
    }

    method Refuse()
      requires Coupled()
      modifies this`rejectedTotal, this`state
      ensures Coupled() && state == old(state).(rejected := old(state).rejected + 1)
    {
      rejectedTotal := rejectedTotal + 1;
      state := state.(rejected := state.rejected + 1);
    }

    /** The fast path: a slot is free and nobody waits. */
    method Take() returns (lease: Lease)
      requires Coupled()
      modifies this`active, this`acquiredTotal, this`leases, this`state
      ensures Coupled() && fresh(lease) && leases == old(leases) + {lease}
      ensures lease.id == old(state).acquired && !lease.released
      ensures state == Admit(old(state))
    {
      active := active + 1;
      lease := Issue();
      state := Admit(state);
    }

    /** Appends a new pending waiter. */
    method Enqueue(priority: Priority) returns (waiter: QueuedWaiter)
      requires Coupled()
      modifies this`waiters, this`sequence, this`made, this`state
      ensures Coupled() && fresh(waiter) && made == old(made) + {waiter}
      ensures waiter.sequence == old(sequence) && waiter.priority == priority
      ensures state == old(state).(waiters := old(state).waiters + [waiter.SortKey()],
                                   sequence := old(state).sequence + 1,
                                   futures := old(state).futures[waiter.sequence := Future.Pending],
                                   suspended := old(state).suspended + {waiter.sequence})
    {
      waiter := new QueuedWaiter(priority, sequence);
      sequence := sequence + 1;
      waiters := waiters + [waiter];
      made := made + {waiter};
      state := state.(waiters := state.waiters + [waiter.SortKey()],
                      sequence := sequence,
                      futures := state.futures[waiter.sequence := Future.Pending],
                      suspended := state.suspended + {waiter.sequence});
      assert Keys(waiters) == state.waiters;
    }

    lemma SameSequence(w: QueuedWaiter)
      requires MadeMatch(state.sequence, state.futures) && QueueMatch(state.waiters) && w in made
      ensures forall x :: x in waiters && x.sequence == w.sequence ==> x == w
    {
    }

    /** The awaited future delivered its lease. */
    method Resumed(w: QueuedWaiter) returns (lease: Lease)
      requires Coupled() && w in made && w.sequence in state.suspended && w.future.Result?
      requires w.future.lease.id in state.live
      modifies this
      ensures Coupled() && leases == old(leases) && made == old(made)
      ensures state == Next(config, old(state), Wake(w.sequence))
      ensures w.future == Result(lease) && lease in leases && !lease.released
      ensures lease.id in state.held
    {
      lease := w.future.lease;
      state := Next(config, state, Wake(w.sequence));
    }

    /** The wait timed out; a grant that got there first still counts. */
    method TimedOut(w: QueuedWaiter) returns (r: Wakeup)
      requires Coupled() && Ascending(state.waiters) && QueuedPending(state)
      requires w in made && w.sequence in state.suspended
      requires !w.future.Dropped?
      requires w.future.Result? ==> w.future.lease.id in state.live
      modifies this, w
      ensures Coupled() && leases == old(leases) && made == old(made)
      ensures state == Next(config, old(state), Timeout(w.sequence))
      ensures r.Returned? <==> old(w.future).Result?
      ensures r.Returned? ==> r.lease in leases && !r.lease.released && r.lease.id in state.held
      ensures r.Raised? ==> r.status == 503
    {
      ghost var before := state;
      if !w.future.Unset? {
        state := Next(config, before, Timeout(w.sequence));
        return Returned(w.future.lease);
      }
      SameSequence(w);
      RemoveWaiter(w);
      w.future := Dropped;
      timedOutTotal := timedOutTotal + 1;
      state := Next(config, before, Timeout(w.sequence));
      return Raised(503);
    }

    /** The caller was cancelled; a lease that was already granted is given back. */
    method WasCancelled(w: QueuedWaiter)
      requires Coupled() && Ascending(state.waiters) && QueuedPending(state)
      requires w in made && w.sequence in state.suspended
      requires w.future.Result? ==> state.active > 0 && w.future.lease.id in state.live
      modifies this, leases, made
      ensures Coupled() && made == old(made)
      ensures old(leases) <= leases && (forall l :: l in leases && l !in old(leases) ==> fresh(l))
      ensures state == Next(config, old(state), Cancel(w.sequence))
    {
      ghost var before := state;
      if w.future.Result? {
        var grantedLease := w.future.lease;
        cancelledTotal := cancelledTotal + 1;
        state := before.(suspended := before.suspended - {w.sequence},
                         cancelled := before.cancelled + 1);
        grantedLease.Release();
      } else {
        SameSequence(w);
        RemoveWaiter(w);
        w.future := Dropped;
        cancelledTotal := cancelledTotal + 1;
        state := Next(config, before, Cancel(w.sequence));
      }
    }
  }

  /** Whatever the steps so far, the gate's invariant grants every method's precondition,
      so the objects never leave the state machine. */
  lemma InvariantSuffices(c: Config, s: State)
    requires Inv(c, s)
    ensures Ascending(s.waiters) && QueuedPending(s)
    ensures forall l :: l in s.live ==> s.active > 0
    ensures forall k :: k in s.suspended && s.futures[k].Granted? ==>
              s.futures[k].lease in s.live && s.active > 0
    ensures forall k :: k in s.suspended ==> k in s.futures && !s.futures[k].Cancelled?
  {
    forall l | l in s.live ensures s.active > 0 {
      assert {l} <= s.live;
      assert s.live == {l} + (s.live - {l});
    }
  }
}
