/** The runtime admission gate as a state machine.

    A gate guards one physical runtime.  In one event loop every critical section of
    the gate runs to completion before any other task is scheduled, so each section is
    one atomic step.  A waiter whose future has been granted, but whose task has not
    been resumed yet, is `suspended` with a `Granted` future: that is the state in
    which a timeout or a cancellation races a grant. */
module Admission {

  datatype Priority = Critical | RepoCritical | Interactive | LocalOnly | Batch | Background

  function Rank(p: Priority): nat {
    match p
    case Critical => 0
    case RepoCritical => 1
    case Interactive => 2
    case LocalOnly => 3
    case Batch => 4
    case Background => 5
  }

  datatype Config = Config(slots: int, queueLimit: int)

  /** A queued request; `sequence` identifies it, because the gate never reuses one. */
  datatype Waiter = Waiter(rank: nat, sequence: nat)

  datatype Future = Pending | Granted(lease: nat) | Cancelled

  /** Leases are numbered in the order in which they are issued. */
  datatype State = State(
    active: int,
    waiters: seq<Waiter>,
    sequence: nat,
    acquired: nat,
    rejected: nat,
    timedOut: nat,
    cancelled: nat,
    futures: map<nat, Future>,
    suspended: set<nat>,       // waiters whose acquire call has not returned
    live: set<nat>,            // issued leases whose released flag is unset
    held: set<nat>,            // leases that some caller was given
    releases: nat,             // releases that took effect
    handedOver: nat,           // slots passed directly to a waiter
    cancelledPending: nat)     // cancellations that arrived before a grant

  datatype Step =
    | Arrive(priority: Priority)
    | Wake(waiter: nat)
    | Timeout(waiter: nat)
    | Cancel(waiter: nat)
    | Release(lease: nat)

  const INITIAL := State(0, [], 0, 0, 0, 0, 0, map[], {}, {}, {}, 0, 0, 0)

  // ---------------------------------------------------------------- the queue

  predicate Before(a: Waiter, b: Waiter) {
    a.rank < b.rank || (a.rank == b.rank && a.sequence < b.sequence)
  }

  /** The waiters whose future is not done. */
  function PendingWaiters(ws: seq<Waiter>, futures: map<nat, Future>): seq<Waiter> {
    if ws == [] then []
    else
      (if ws[0].sequence in futures && futures[ws[0].sequence].Pending? then [ws[0]] else [])
      + PendingWaiters(ws[1..], futures)
  }

  /** The queue's minimum by (rank, sequence). */
  function Best(ws: seq<Waiter>): (b: Waiter)
    requires ws != []
    ensures b in ws
    ensures forall x :: x in ws ==> x == b || Before(b, x)
  {
    if |ws| == 1 then ws[0]
    else
      var b := Best(ws[1..]);
      assert forall x :: x in ws ==> x == ws[0] || x in ws[1..];
      if Before(ws[0], b) || b == ws[0] then ws[0] else b
  }

  function Without(ws: seq<Waiter>, sequence: nat): seq<Waiter> {
    if ws == [] then []
    else if ws[0].sequence == sequence then ws[1..]
    else [ws[0]] + Without(ws[1..], sequence)
  }

  // ---------------------------------------------------------------- the steps

  /** Frees one slot, or passes it to the best waiter. */
  function GateRelease(s: State): State {
    if s.active <= 0 then s
    else
      var pending := PendingWaiters(s.waiters, s.futures);
      if pending == [] then
        s.(active := s.active - 1, waiters := [], releases := s.releases + 1)
      else
        HandOver(s, Best(pending).sequence)
  }

  /** The waiter numbered `w` is given the slot that came back. */
  function HandOver(s: State, w: nat): State {
    s.(waiters := Without(s.waiters, w),
       acquired := s.acquired + 1,
       futures := s.futures[w := Granted(s.acquired)],
       live := s.live + {s.acquired},
       releases := s.releases + 1,
       handedOver := s.handedOver + 1)
  }

  /** Only the first release of a lease reaches the gate. */
  function LeaseRelease(s: State, lease: nat): State {
    if lease !in s.live then s else GateRelease(s.(live := s.live - {lease}))
  }

  function Admit(s: State): State {
    s.(active := s.active + 1,
       acquired := s.acquired + 1,
       live := s.live + {s.acquired},
       held := s.held + {s.acquired})
  }

  function Enqueue(s: State, p: Priority): State {
    s.(waiters := s.waiters + [Waiter(Rank(p), s.sequence)],
       sequence := s.sequence + 1,
       futures := s.futures[s.sequence := Pending],
       suspended := s.suspended + {s.sequence})
  }

  function Enter(c: Config, s: State, p: Priority): State {
    if c.slots <= 0 then s.(rejected := s.rejected + 1)
    else if s.active < c.slots && s.waiters == [] then Admit(s)
    else if c.queueLimit <= 0 || |s.waiters| >= c.queueLimit then
      s.(rejected := s.rejected + 1)
    else Enqueue(s, p)
  }

  /** The waiter's task resumes with the lease its future was given. */
  function Resume(s: State, w: nat, lease: nat): State {
    s.(suspended := s.suspended - {w}, held := s.held + {lease})
  }

  /** The waiter leaves the queue without a slot. */
  function Abandon(s: State, w: nat): State {
    s.(waiters := Without(s.waiters, w),
       futures := s.futures[w := Cancelled],
       suspended := s.suspended - {w})
  }

  function OnTimeout(s: State, w: nat): State
    requires w in s.futures
  {
    if s.futures[w].Granted? then Resume(s, w, s.futures[w].lease)
    else Abandon(s, w).(timedOut := s.timedOut + 1)
  }

  function OnCancel(s: State, w: nat): State
    requires w in s.futures
  {
    if s.futures[w].Granted? then
      LeaseRelease(s.(suspended := s.suspended - {w}, cancelled := s.cancelled + 1),
                   s.futures[w].lease)
    else
      Abandon(s, w).(cancelled := s.cancelled + 1,
                     cancelledPending := s.cancelledPending + 1)
  }

  /** One atomic step; a step that no task can take leaves the gate alone. */
  function Next(c: Config, s: State, step: Step): State {
    match step
    case Arrive(p) => Enter(c, s, p)
    case Wake(w) =>
      if w in s.suspended && w in s.futures && s.futures[w].Granted?
      then Resume(s, w, s.futures[w].lease) else s
    case Timeout(w) => if w in s.suspended && w in s.futures then OnTimeout(s, w) else s
    case Cancel(w) => if w in s.suspended && w in s.futures then OnCancel(s, w) else s
    case Release(l) => if l in s.held then LeaseRelease(s, l) else s
  }

  function Run(c: Config, s: State, steps: seq<Step>): State
    decreases |steps|
  {
    if steps == [] then s else Run(c, Next(c, s, steps[0]), steps[1..])
  }

  // ---------------------------------------------------------------- the invariant

  ghost predicate Capacity(c: Config, s: State) {
    && s.active == |s.live|
    && s.active <= (if c.slots <= 0 then 0 else c.slots)
    && |s.waiters| <= (if c.queueLimit <= 0 then 0 else c.queueLimit)
    && (s.waiters != [] ==> c.slots > 0 && s.active == c.slots)
  }

  ghost predicate Ascending(ws: seq<Waiter>) {
    forall i, j :: 0 <= i < j < |ws| ==> ws[i].sequence < ws[j].sequence
  }

  ghost predicate QueuedPending(s: State) {
    forall x :: x in s.waiters ==> x.sequence in s.futures && s.futures[x.sequence].Pending?
  }

  ghost predicate QueuedSuspended(s: State) {
    forall x :: x in s.waiters ==> x.sequence in s.suspended
  }

  ghost predicate SuspendedServed(s: State) {
    && (forall k :: k in s.futures ==> k < s.sequence)
    && (forall k :: k in s.suspended ==> k in s.futures && !s.futures[k].Cancelled?)
    && (forall k :: k in s.suspended && s.futures[k].Pending? ==> IsQueued(s.waiters, k))
  }

  ghost predicate IsQueued(ws: seq<Waiter>, k: nat) { exists x :: x in ws && x.sequence == k }

  /** The queue is in arrival order and holds exactly the suspended requests that have no
      outcome yet. */
  ghost predicate Queue(s: State) {
    Ascending(s.waiters) && QueuedPending(s) && QueuedSuspended(s) && SuspendedServed(s)
  }

  /** Every unreleased lease has exactly one owner: a caller that was given it, or a
      suspended waiter whose future holds it. */
  ghost predicate Ownership(s: State) {
    && (forall l :: l in s.live ==> l < s.acquired)
    && (forall l :: l in s.held ==> l < s.acquired)
    && (forall k :: k in s.suspended && k in s.futures && s.futures[k].Granted? ==>
          s.futures[k].lease in s.live && s.futures[k].lease !in s.held)
    && (forall j, k ::
          (j in s.suspended && k in s.suspended && j in s.futures && k in s.futures
           && s.futures[j].Granted? && s.futures[j] == s.futures[k]) ==> j == k)
    && (forall l :: l in s.live && l !in s.held ==> HasTaker(s, l))
  }

  /** A suspended waiter has been granted `l`. */
  ghost predicate HasTaker(s: State, l: nat) {
    exists k :: k in s.suspended && k in s.futures && s.futures[k] == Granted(l)
  }

  ghost predicate Accounts(s: State) {
    && s.acquired == |s.live| + s.releases
    && s.sequence == s.handedOver + s.timedOut + s.cancelledPending + |s.waiters|
    && s.cancelledPending <= s.cancelled
  }

  ghost predicate Inv(c: Config, s: State) {
    Capacity(c, s) && Queue(s) && Ownership(s) && Accounts(s)
  }

  // ---------------------------------------------------------------- queue lemmas

  lemma {:induction false} AllPending(ws: seq<Waiter>, futures: map<nat, Future>)
    requires forall x :: x in ws ==> x.sequence in futures && futures[x.sequence].Pending?
    ensures PendingWaiters(ws, futures) == ws
  {
    if ws != [] {
      assert ws[0] in ws;
      assert forall x :: x in ws[1..] ==> x in ws;
      AllPending(ws[1..], futures);
    }
  }

  lemma {:induction false} WithoutAbsent(ws: seq<Waiter>, k: nat)
    requires forall x :: x in ws ==> x.sequence != k
    ensures Without(ws, k) == ws
  {
    if ws != [] {
      assert ws[0] in ws;
      assert forall x :: x in ws[1..] ==> x in ws;
      WithoutAbsent(ws[1..], k);
    }
  }

  lemma {:induction false} WithoutAt(ws: seq<Waiter>, i: nat)
    requires Ascending(ws) && i < |ws|
    ensures Without(ws, ws[i].sequence) == ws[..i] + ws[i + 1..]
  {
    if i > 0 {
      var rest := ws[1..];
      assert Ascending(rest);
      WithoutAt(rest, i - 1);
      assert ws[0].sequence < ws[i].sequence;
      assert ws[..i] + ws[i + 1..] == [ws[0]] + (rest[..i - 1] + rest[i..]);
    }
  }

  lemma CutAscending(ws: seq<Waiter>, i: nat)
    requires Ascending(ws) && i < |ws|
    ensures Ascending(ws[..i] + ws[i + 1..])
  {
    var r := ws[..i] + ws[i + 1..];
    assert forall a :: 0 <= a < |r| ==> r[a] == ws[if a < i then a else a + 1];
  }

  lemma CutLoses(ws: seq<Waiter>, i: nat, y: Waiter)
    requires Ascending(ws) && i < |ws| && y in ws[..i] + ws[i + 1..]
    ensures y in ws && y.sequence != ws[i].sequence
  {
    var a :| 0 <= a < |ws| && a != i && ws[a] == y;
    assert ws[a].sequence != ws[i].sequence by {
      if a < i { assert ws[a].sequence < ws[i].sequence; }
    }
  }

  lemma CutKeeps(ws: seq<Waiter>, i: nat, y: Waiter)
    requires i < |ws| && y in ws && y != ws[i]
    ensures y in ws[..i] + ws[i + 1..]
  {
    var j :| 0 <= j < |ws| && ws[j] == y;
    assert (ws[..i] + ws[i + 1..])[if j < i then j else j - 1] == y;
  }

  /** Removing a queued waiter keeps the others, in order. */
  lemma Removal(ws: seq<Waiter>, x: Waiter)
    requires Ascending(ws) && x in ws
    ensures var r := Without(ws, x.sequence);
            && |r| == |ws| - 1 && Ascending(r)
            && (forall y :: y in r ==> y in ws && y.sequence != x.sequence)
            && (forall y :: y in ws && y != x ==> y in r)
  {
    var i :| 0 <= i < |ws| && ws[i] == x;
    WithoutAt(ws, i);
    CutAscending(ws, i);
    var r := ws[..i] + ws[i + 1..];
    forall y | y in r ensures y in ws && y.sequence != x.sequence { CutLoses(ws, i, y); }
    forall y | y in ws && y != x ensures y in r { CutKeeps(ws, i, y); }
  }

  /** Whoever was queued still is, unless it is the one removed. */
  lemma StillQueued(ws: seq<Waiter>, x: Waiter, k: nat)
    requires Ascending(ws) && x in ws && IsQueued(ws, k) && k != x.sequence
    ensures IsQueued(Without(ws, x.sequence), k)
  {
    Removal(ws, x);
    var y :| y in ws && y.sequence == k;
    assert y in Without(ws, x.sequence);
  }

  // ---------------------------------------------------------------- what a release does

  /** What is true while a lease is being given back: its flag is set, its slot is still
      counted. */
  ghost predicate Releasing(c: Config, s: State) {
    && s.active == |s.live| + 1
    && c.slots > 0 && s.active <= c.slots
    && |s.waiters| <= (if c.queueLimit <= 0 then 0 else c.queueLimit)
    && (s.waiters != [] ==> s.active == c.slots)
    && Queue(s) && Ownership(s)
    && s.acquired == |s.live| + 1 + s.releases
    && s.sequence == s.handedOver + s.timedOut + s.cancelledPending + |s.waiters|
    && s.cancelledPending <= s.cancelled
  }

  /** A release hands its slot to the unique least waiter, or frees it when there is
      none. */
  lemma ReleaseHandsOver(s: State)
    requires s.active > 0 && QueuedPending(s)
    ensures s.waiters == [] ==>
              GateRelease(s) == s.(active := s.active - 1, releases := s.releases + 1)
    ensures s.waiters != [] ==> GateRelease(s) == HandOver(s, Best(s.waiters).sequence)
  {
    AllPending(s.waiters, s.futures);
  }

  lemma HandOverQueue(s: State, w: Waiter)
    requires Queue(s) && w in s.waiters
    ensures Queue(HandOver(s, w.sequence))
  {
    var t := HandOver(s, w.sequence);
    Removal(s.waiters, w);
    forall k | k in t.suspended && t.futures[k].Pending? ensures IsQueued(t.waiters, k) {
      StillQueued(s.waiters, w, k);
    }
  }

  lemma GateReleaseQueue(c: Config, s: State)
    requires Releasing(c, s)
    ensures Queue(GateRelease(s))
  {
    ReleaseHandsOver(s);
    if s.waiters != [] { HandOverQueue(s, Best(s.waiters)); }
  }

  lemma HandOverOwnership(s: State, w: nat)
    requires Ownership(s) && w in s.suspended && w in s.futures && s.futures[w].Pending?
    ensures Ownership(HandOver(s, w))
  {
    var t := HandOver(s, w);
    assert t.futures[w] == Granted(s.acquired) && w in t.suspended;
    forall l | l in t.live && l !in t.held ensures HasTaker(t, l) {
      if l != s.acquired {
        var k :| k in s.suspended && k in s.futures && s.futures[k] == Granted(l);
        assert t.futures[k] == Granted(l);
      }
    }
  }

  lemma GateReleaseOwnership(c: Config, s: State)
    requires Releasing(c, s)
    ensures Ownership(GateRelease(s))
  {
    ReleaseHandsOver(s);
    if s.waiters != [] { HandOverOwnership(s, Best(s.waiters).sequence); }
  }

  lemma GateReleaseInv(c: Config, s: State)
    requires Releasing(c, s)
    ensures Inv(c, GateRelease(s))
  {
    ReleaseHandsOver(s);
    GateReleaseQueue(c, s);
    GateReleaseOwnership(c, s);
    if s.waiters != [] { Removal(s.waiters, Best(s.waiters)); }
  }

  /** Giving back a lease that nobody else holds keeps the gate sound. */
  lemma LeaseReleaseInv(c: Config, s: State, l: nat)
    requires Inv(c, s)
    requires l in s.live ==> l in s.held
    ensures Inv(c, LeaseRelease(s, l))
    ensures LeaseRelease(s, l).releases == s.releases + (if l in s.live then 1 else 0)
  {
    if l in s.live {
      var m := s.(live := s.live - {l});
      assert |m.live| == |s.live| - 1;
      assert Ownership(m) by {
        forall j | j in m.live && j !in m.held
          ensures HasTaker(m, j)
        {
          var k :| k in s.suspended && k in s.futures && s.futures[k] == Granted(j);
          assert m.futures[k] == Granted(j);
        }
      }
      GateReleaseInv(c, m);
      ReleaseHandsOver(m);
    }
  }

  // ---------------------------------------------------------------- every step keeps it

  lemma AdmitInv(c: Config, s: State)
    requires Inv(c, s) && s.active < c.slots && s.waiters == []
    ensures Inv(c, Admit(s))
  {
    assert s.acquired !in s.live;
    forall l | l in s.live && l !in s.held ensures HasTaker(Admit(s), l) {
      var k :| k in s.suspended && k in s.futures && s.futures[k] == Granted(l);
      assert Admit(s).futures[k] == Granted(l);
    }
  }

  lemma {:induction false} EnqueueQueue(s: State, p: Priority)
    requires Queue(s)
    ensures Queue(Enqueue(s, p))
  {
    var t := Enqueue(s, p);
    var w := Waiter(Rank(p), s.sequence);
    assert t.waiters[|s.waiters|] == w && w in t.waiters;
    assert forall x :: x in s.waiters ==> x in t.waiters;
    assert forall x :: x in t.waiters ==> x in s.waiters || x == w;
    assert forall i :: 0 <= i < |s.waiters| ==> s.waiters[i] in s.waiters;
    forall k | k in t.suspended && t.futures[k].Pending? ensures IsQueued(t.waiters, k) {
      if k == s.sequence {
        assert w in t.waiters && w.sequence == k;
      } else {
        assert IsQueued(s.waiters, k);
      }
    }
  }

  lemma EnqueueOwnership(s: State, p: Priority)
    requires Queue(s) && Ownership(s)
    ensures Ownership(Enqueue(s, p))
  {
    var t := Enqueue(s, p);
    forall l | l in t.live && l !in t.held ensures HasTaker(t, l) {
      var k :| k in s.suspended && k in s.futures && s.futures[k] == Granted(l);
      assert t.futures[k] == Granted(l);
    }
  }

  lemma EnterInv(c: Config, s: State, p: Priority)
    requires Inv(c, s)
    ensures Inv(c, Enter(c, s, p))
  {
    if c.slots <= 0 {
    } else if s.active < c.slots && s.waiters == [] {
      AdmitInv(c, s);
    } else if c.queueLimit <= 0 || |s.waiters| >= c.queueLimit {
    } else {
      EnqueueQueue(s, p);
      EnqueueOwnership(s, p);
    }
  }

  lemma ResumeInv(c: Config, s: State, w: nat)
    requires Inv(c, s) && w in s.suspended && w in s.futures && s.futures[w].Granted?
    ensures Inv(c, Resume(s, w, s.futures[w].lease))
  {
    var l := s.futures[w].lease;
    var t := Resume(s, w, l);
    forall j | j in t.live && j !in t.held
      ensures HasTaker(t, j)
    {
      var k :| k in s.suspended && k in s.futures && s.futures[k] == Granted(j);
      assert k != w;
      assert t.futures[k] == Granted(j);
    }
  }

  lemma AbandonQueue(c: Config, s: State, w: nat)
    requires Inv(c, s) && w in s.suspended && w in s.futures && !s.futures[w].Granted?
    ensures Queue(Abandon(s, w)) && |Abandon(s, w).waiters| == |s.waiters| - 1
  {
    assert IsQueued(s.waiters, w);
    var x :| x in s.waiters && x.sequence == w;
    Removal(s.waiters, x);
    var t := Abandon(s, w);
    forall k | k in t.suspended && t.futures[k].Pending? ensures IsQueued(t.waiters, k) {
      StillQueued(s.waiters, x, k);
    }
  }

  lemma AbandonOwnership(s: State, w: nat)
    requires Ownership(s) && w in s.suspended && w in s.futures && !s.futures[w].Granted?
    ensures Ownership(Abandon(s, w))
  {
    var t := Abandon(s, w);
    forall j | j in t.live && j !in t.held ensures HasTaker(t, j) {
      var k :| k in s.suspended && k in s.futures && s.futures[k] == Granted(j);
      assert t.futures[k] == Granted(j);
    }
  }

  lemma GiveUpInv(c: Config, s: State, w: nat)
    requires Inv(c, s) && w in s.suspended && w in s.futures && !s.futures[w].Granted?
    ensures Inv(c, OnTimeout(s, w))
  {
    AbandonQueue(c, s, w);
    AbandonOwnership(s, w);
  }

  lemma CancelPendingInv(c: Config, s: State, w: nat)
    requires Inv(c, s) && w in s.suspended && w in s.futures && !s.futures[w].Granted?
    ensures Inv(c, OnCancel(s, w))
  {
    AbandonQueue(c, s, w);
    AbandonOwnership(s, w);
  }

  /** The gate between the moment a granted waiter drops out and the return of its slot. */
  ghost function DroppedOut(s: State, w: nat): State
    requires w in s.suspended && w in s.futures && s.futures[w].Granted?
  {
    s.(suspended := s.suspended - {w}, cancelled := s.cancelled + 1, live := s.live - {s.futures[w].lease})
  }

  lemma DropOutOwnership(s: State, w: nat)
    requires Ownership(s) && w in s.suspended && w in s.futures && s.futures[w].Granted?
    ensures Ownership(DroppedOut(s, w))
  {
    var m := DroppedOut(s, w);
    forall j | j in m.live && j !in m.held ensures HasTaker(m, j) {
      var k :| k in s.suspended && k in s.futures && s.futures[k] == Granted(j);
      assert k != w;
      assert m.futures[k] == Granted(j);
    }
  }

  lemma DropOutReleasing(c: Config, s: State, w: nat)
    requires Inv(c, s) && w in s.suspended && w in s.futures && s.futures[w].Granted?
    ensures Releasing(c, DroppedOut(s, w))
  {
    var m := DroppedOut(s, w);
    assert |m.live| == |s.live| - 1;
    DropOutOwnership(s, w);
    assert Queue(m);
  }

  lemma CancelGrantedInv(c: Config, s: State, w: nat)
    requires Inv(c, s) && w in s.suspended && w in s.futures && s.futures[w].Granted?
    ensures Inv(c, OnCancel(s, w))
    ensures OnCancel(s, w).releases == s.releases + 1
  {
    DropOutReleasing(c, s, w);
    GateReleaseInv(c, DroppedOut(s, w));
    ReleaseHandsOver(DroppedOut(s, w));
  }

  lemma StepInv(c: Config, s: State, step: Step)
    requires Inv(c, s)
    ensures Inv(c, Next(c, s, step))
  {
    match step
    case Arrive(p) => EnterInv(c, s, p);
    case Wake(w) =>
      if w in s.suspended && s.futures[w].Granted? { ResumeInv(c, s, w); }
    case Timeout(w) =>
      if w in s.suspended {
        if s.futures[w].Granted? { ResumeInv(c, s, w); } else { GiveUpInv(c, s, w); }
      }
    case Cancel(w) =>
      if w in s.suspended {
        if s.futures[w].Granted? { CancelGrantedInv(c, s, w); } else { CancelPendingInv(c, s, w); }
      }
    case Release(l) =>
      if l in s.held { LeaseReleaseInv(c, s, l); }
  }

  /** In every run the gate's accounts balance: `active` counts exactly the unreleased
      leases, grants not yet picked up included, and never exceeds the slots; the queue
      never exceeds its limit; requests wait only while every slot is taken. */
  lemma {:induction false} RunInv(c: Config, s: State, steps: seq<Step>)
    requires Inv(c, s)
    ensures Inv(c, Run(c, s, steps))
    decreases |steps|
  {
    if steps != [] {
      StepInv(c, s, steps[0]);
      RunInv(c, Next(c, s, steps[0]), steps[1..]);
    }
  }

  /** Numbers that are not in use yet, and who may be asked to wait. */
  lemma FreshNumbers(c: Config, s: State)
    requires Inv(c, s)
    ensures s.acquired !in s.live && s.acquired !in s.held && s.sequence !in s.suspended
    ensures s.suspended == {} ==> s.waiters == []
  {
    assert |s.waiters| > 0 ==> s.waiters[0] in s.waiters;
  }

  /** A lease that a suspended waiter was granted is live and is nobody else's. */
  lemma GrantIsPrivate(c: Config, s: State, w: nat)
    requires Inv(c, s) && w in s.suspended
    ensures w in s.futures
    ensures s.futures[w].Granted? ==>
              s.futures[w].lease in s.live && s.futures[w].lease !in s.held
  {
  }
}
