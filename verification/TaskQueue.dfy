/**
 The task queue of utils/utils.go: a mutex-protected list of keys, a wake channel of capacity
 one, one worker and any number of goroutines that enqueue.
 */
module TaskQueue {
  /** Where the worker is: about to pop, inside sync, waiting in select, or returned. */
  datatype Worker = Popping | Syncing(key: string) | Selecting | Done

  datatype Queue = Queue(
    items: seq<string>,
    pending: set<string>,
    token: bool,             // the wake channel is full
    stopped: bool,
    once: bool,              // stopOnce has fired
    senders: nat,            // goroutines that still have to offer a token
    worker: Worker,
    appended: seq<string>,   // every key that was ever appended to items
    started: seq<string>)    // every key whose sync has started

  const EMPTY := Queue([], {}, false, false, false, 0, Popping, [], [])

  /** The atomic steps: the locked part of Enqueue, a token offer, the locked part of pop, the
      return of sync, the two branches of select, and the locked part of Shutdown. */
  datatype Event = Enqueue(key: string) | Offer | Pop | SyncDone | Wake | StopSeen | Shutdown

  predicate Accepts(q: Queue, key: string) {
    key != "" && !q.stopped && key !in q.pending
  }

  /** The key of this Enqueue waits in the queue: it was appended or coalesced. */
  predicate Owed(q: Queue, key: string) {
    key != "" && !q.stopped
  }

  predicate Enabled(q: Queue, e: Event) {
    match e
    case Enqueue(_) => true
    case Offer => q.senders > 0
    case Pop => q.worker == Popping
    case SyncDone => q.worker.Syncing?
    case Wake => q.worker == Selecting && q.token
    case StopSeen => q.worker == Selecting
    case Shutdown => true
  }

  function Step(q: Queue, e: Event): Queue
    requires Enabled(q, e)
  {
    match e
    case Enqueue(key) =>
      if Accepts(q, key) then
        q.(items := q.items + [key], pending := q.pending + {key}, senders := q.senders + 1,
           appended := q.appended + [key])
      else q
    case Offer => q.(token := true, senders := q.senders - 1)
    case Pop =>
      if q.items == [] then q.(worker := Selecting)
      else q.(items := q.items[1..], pending := q.pending - {q.items[0]}, worker := Syncing(q.items[0]),
              started := q.started + [q.items[0]])
    case SyncDone => q.(worker := Popping)
    case Wake => q.(token := false, worker := Popping)
    case StopSeen => q.(stopped := true, once := true, worker := Done)
    case Shutdown => if q.once then q else q.(stopped := true, once := true, senders := q.senders + 1)
  }

  ghost predicate Runs(q: Queue, es: seq<Event>, r: Queue)
    decreases |es|
  {
    if es == [] then q == r
    else Enabled(q, es[0]) && Runs(Step(q, es[0]), es[1..], r)
  }

  // ---------------------------------------------------------------------------------------
  // Safety
  // ---------------------------------------------------------------------------------------

  predicate NoDuplicates(items: seq<string>) {
    forall i, j :: 0 <= i < j < |items| ==> items[i] != items[j]
  }

  /** No wakeup is lost: a worker waiting over a nonempty queue has a token, or somebody is about
      to offer one. */
  predicate NoLostWakeup(q: Queue) {
    q.worker == Selecting && q.items != [] ==> q.token || q.senders > 0
  }

  predicate Invariant(q: Queue) {
    && q.appended == q.started + q.items
    && NoDuplicates(q.items)
    && q.pending == (set i | 0 <= i < |q.items| :: q.items[i])
    && "" !in q.appended
    && NoLostWakeup(q)
    && (q.once <==> q.stopped)
    && (q.worker.Done? ==> q.stopped)
    && (q.worker.Syncing? ==> q.started != [] && q.started[|q.started| - 1] == q.worker.key)
  }

  lemma EnqueueKeepsInvariant(q: Queue, key: string)
    requires Invariant(q) && Accepts(q, key)
    ensures Invariant(Step(q, Enqueue(key)))
  {
    var r := Step(q, Enqueue(key));
    forall i | 0 <= i < |q.items| ensures q.items[i] != key {
      assert q.items[i] in q.pending;
    }
    assert r.items[|q.items|] == key;
    assert forall x :: x in r.pending ==> x in q.pending || x == key;
    assert r.pending == (set i | 0 <= i < |r.items| :: r.items[i]) by {
      forall x | x in q.pending ensures exists i :: 0 <= i < |r.items| && r.items[i] == x {
        var i :| 0 <= i < |q.items| && q.items[i] == x;
        assert r.items[i] == x;
      }
    }
    assert r.appended == r.started + r.items;
  }

  lemma PopKeepsInvariant(q: Queue)
    requires Invariant(q) && q.worker == Popping && q.items != []
    ensures Invariant(Step(q, Pop))
  {
    var r := Step(q, Pop);
    assert q.started + q.items == r.started + r.items;
    assert r.pending == (set i | 0 <= i < |r.items| :: r.items[i]) by {
      forall x | x in r.pending ensures exists i :: 0 <= i < |r.items| && r.items[i] == x {
        var i :| 0 <= i < |q.items| && q.items[i] == x;
        assert r.items[i - 1] == x;
      }
      forall i | 0 <= i < |r.items| ensures r.items[i] in r.pending {
        assert r.items[i] == q.items[i + 1];
      }
    }
  }

  lemma StepKeepsInvariant(q: Queue, e: Event)
    requires Invariant(q) && Enabled(q, e)
    ensures Invariant(Step(q, e))
  {
    if e.Enqueue? && Accepts(q, e.key) {
      EnqueueKeepsInvariant(q, e.key);
    } else if e.Pop? && q.items != [] {
      PopKeepsInvariant(q);
    }
  }

  /** History only grows. */
  predicate Extends(q: Queue, r: Queue) {
    q.appended <= r.appended && q.started <= r.started && (q.stopped ==> r.stopped && r.appended == q.appended)
  }

  /** In every run from any consistent state, with any number of goroutines, the queue stays
      consistent and no wakeup is lost; after a stop nothing is appended any more. */
  lemma {:induction false} EveryRunIsConsistent(q: Queue, es: seq<Event>, r: Queue)
    requires Invariant(q) && Runs(q, es, r)
    ensures Invariant(r) && Extends(q, r)
    decreases |es|
  {
    if es != [] {
      StepKeepsInvariant(q, es[0]);
      EveryRunIsConsistent(Step(q, es[0]), es[1..], r);
      assert Extends(q, Step(q, es[0]));
    }
  }

  /** A Shutdown ends appending for good and touches nothing that waits; the first stop owes a token,
      so that a waiting worker looks again. */
  lemma ShutdownEndsAppending(q: Queue, es: seq<Event>, r: Queue)
    requires Invariant(q) && Runs(Step(q, Shutdown), es, r)
    ensures r.stopped && r.appended == q.appended && q.started <= r.started
    ensures var s := Step(q, Shutdown);
            && s.items == q.items && s.pending == q.pending && s.token == q.token && s.worker == q.worker
            && s.started == q.started && s.senders == q.senders + if q.stopped then 0 else 1
  {
    StepKeepsInvariant(q, Shutdown);
    EveryRunIsConsistent(Step(q, Shutdown), es, r);
  }

  // ---------------------------------------------------------------------------------------
  // Every accepted or coalesced Enqueue is owed one later sync
  // ---------------------------------------------------------------------------------------

  /** An Enqueue before the stop has a place in the queue that no sync has reached yet; once as
      many syncs have started as there are keys up to that place, one of the later ones was for
      this key. */
  lemma EnqueueIsOwedASync(q: Queue, key: string, es: seq<Event>, r: Queue) returns (place: nat)
    requires Invariant(q) && Owed(q, key)
    requires Runs(Step(q, Enqueue(key)), es, r)
    ensures |q.started| <= place < |q.started| + |Step(q, Enqueue(key)).items| <= |r.appended|
    ensures r.appended[place] == key && r.appended == r.started + r.items
    ensures |r.started| > place ==> r.started[place] == key
    ensures |r.started| <= place ==> r.items[place - |r.started|] == key
  {
    var p := Step(q, Enqueue(key));
    StepKeepsInvariant(q, Enqueue(key));
    EveryRunIsConsistent(p, es, r);
    assert key in p.pending;
    var i :| 0 <= i < |p.items| && p.items[i] == key;
    place := |p.started| + i;
    assert p.appended[place] == key;
    assert r.appended[place] == p.appended[place];
  }

  /** Two enqueues of a key with no pop in between make one entry. */
  lemma SecondEnqueueCoalesces(q: Queue, key: string)
    requires Invariant(q)
    ensures var once := Step(q, Enqueue(key)); Step(once, Enqueue(key)) == once
  {
  }

  // ---------------------------------------------------------------------------------------
  // Progress
  // ---------------------------------------------------------------------------------------

  /** Steps that need no new work from outside. */
  predicate Internal(e: Event) {
    e in {Offer, Pop, SyncDone, Wake}
  }

  function Measure(q: Queue): nat {
    4 * q.senders + (if q.token then 3 else 0) + 2 * |q.items| +
    match q.worker
    case Syncing(_) => 2
    case Popping => 1
    case _ => 0
  }

  lemma InternalStepDecreases(q: Queue, e: Event)
    requires Enabled(q, e) && Internal(e)
    ensures Measure(Step(q, e)) < Measure(q)
  {
  }

  predicate Quiet(q: Queue) {
    !Enabled(q, Offer) && !Enabled(q, Pop) && !Enabled(q, SyncDone) && !Enabled(q, Wake)
  }

  /** Once enqueuing pauses, the worker and the senders come to rest after a bounded number of
      steps, and unless the worker was stopped every key that was ever appended has been synced,
      in the order of appending. */
  lemma {:induction false} QueueDrains(q: Queue, es: seq<Event>, r: Queue)
    requires Invariant(q) && Runs(q, es, r)
    requires forall i :: 0 <= i < |es| ==> Internal(es[i])
    ensures |es| <= Measure(q)
    ensures Quiet(r) && !r.worker.Done? ==> r.items == [] && r.pending == {} && r.started == r.appended == q.appended
    decreases |es|
  {
    if es == [] {
      if Quiet(r) && !r.worker.Done? {
        assert r.items == [];
        assert r.pending == {};
      }
    } else {
      assert Internal(es[0]);
      StepKeepsInvariant(q, es[0]);
      InternalStepDecreases(q, es[0]);
      QueueDrains(Step(q, es[0]), es[1..], r);
    }
  }

  // ---------------------------------------------------------------------------------------
  // The queue object
  // ---------------------------------------------------------------------------------------

  /** The fields the goroutines share. What a goroutine does between two lock operations is one
      method; `View` adds the worker and the history. */
  class Tasks {
    var items: seq<string>
    var pending: set<string>
    var token: bool
    var stopped: bool
    var once: bool
    ghost var senders: nat
    ghost var worker: Worker
    ghost var appended: seq<string>
    ghost var started: seq<string>

    ghost function View(): Queue
      reads this
    {
      Queue(items, pending, token, stopped, once, senders, worker, appended, started)
    }

    constructor ()
      ensures View() == EMPTY && Invariant(View())
    {
      items, pending, token, stopped, once := [], {}, false, false, false;
      senders, worker, appended, started := 0, Popping, [], [];
    }

    /** The locked part of pop. */
    method PopLocked() returns (key: string, ok: bool)
      requires Invariant(View()) && worker == Popping
      modifies this
      ensures View() == Step(old(View()), Pop) && Invariant(View())
      ensures ok <==> old(items) != []
      ensures ok ==> key == old(items)[0] && worker == Syncing(key)
    {
      StepKeepsInvariant(View(), Pop);
      if |items| == 0 {
        worker := Selecting;
        return "", false;
      }
      key := items[0];
      items := items[1..];
      pending := pending - {key};
      worker := Syncing(key);
      started := started + [key];
      ok := true;
    }

    /** The locked part of Enqueue; true if a token has to be offered. */
    method EnqueueLocked(key: string) returns (offer: bool)
      requires Invariant(View())
      modifies this
      ensures View() == Step(old(View()), Event.Enqueue(key)) && Invariant(View())
      ensures offer <==> senders == old(senders) + 1
    {
      StepKeepsInvariant(View(), Event.Enqueue(key));
      if key == "" {
        return false;
      }
      if stopped {
        return false;
      }
      if key in pending {
        return false;
      }
      pending := pending + {key};
      items := items + [key];
      appended := appended + [key];
      senders := senders + 1;
      return true;
    }

    /** The non-blocking send on the wake channel. */
    method OfferToken()
      requires Invariant(View()) && senders > 0
      modifies this
      ensures View() == Step(old(View()), Offer) && Invariant(View())
    {
      StepKeepsInvariant(View(), Offer);
      if !token {
        token := true;
      }
      senders := senders - 1;
    }

    /** Enqueue as one goroutine runs it when nobody interferes. */
    method Enqueue(key: string)
      requires Invariant(View())
      modifies this
      ensures Invariant(View())
      ensures key != "" && !old(stopped) ==> key in items
      ensures if Accepts(old(View()), key) then items == old(items) + [key] && token
              else items == old(items) && token == old(token)
      ensures senders == old(senders)
    {
      var offer := EnqueueLocked(key);
      assert old(View()).pending == (set i | 0 <= i < |old(items)| :: old(items)[i]);
      if offer {
        OfferToken();
      }
    }

    /** The locked part of Shutdown; true if a token has to be offered. */
    method ShutdownLocked() returns (offer: bool)
      requires Invariant(View())
      modifies this
      ensures View() == Step(old(View()), Shutdown) && Invariant(View())
      ensures offer <==> !old(once)
    {
      StepKeepsInvariant(View(), Shutdown);
      if once {
        return false;
      }
      once := true;
      stopped := true;
      senders := senders + 1;
      return true;
    }

    /** One turn of select in Run; `stop` says which ready channel is chosen. True to go on. */
    method Select(stop: bool) returns (again: bool)
      requires Invariant(View()) && worker == Selecting && (stop || token)
      modifies this
      ensures View() == Step(old(View()), if stop then StopSeen else Wake) && Invariant(View())
      ensures again <==> !stop
    {
      StepKeepsInvariant(View(), if stop then StopSeen else Wake);
      if stop {
        if !once {
          once := true;
          stopped := true;
        }
        worker := Done;
        return false;
      }
      token := false;
      worker := Popping;
      return true;
    }
  }
}
