/**
 The compression work queue of sys/minimal_osd.cpp as a transition system.

 One step is one critical section, one callback, one notify, one sleep or one
 unlocked access.  The worker's completion section is split at the point where it
 publishes `completed`, because `osd_work_item_wait` reads that flag without the
 mutex.  Timeouts and spurious wake-ups are nondeterministic steps.
 */
module WorkQueue {
  import opened Wrappers

  const WORK_MAX_THREADS := 16

  /** `runs` counts callback invocations; `released` is set once a caller has begun
      `osd_work_item_release`; `freed` once the object has been deleted. */
  datatype Item = Item(
    autoRelease: bool,
    runs: nat,
    completed: bool,
    waitedOn: bool,
    released: bool,
    freed: bool)

  datatype Worker =
    | Ready                                        // about to take the mutex and test the predicate
    | Asleep                                       // inside cv.wait
    | Popped(item: nat)                            // owns an item, callback not yet called
    | Called(item: nat)                            // callback returned
    | Finished(handle: Option<nat>)                // auto-release items have been deleted
    | Publishing(handle: Option<nat>, wake: bool)  // holds the mutex, pending_items decremented
    | Published(wake: bool)                        // holds the mutex, `completed` stored
    | Notifying                                    // mutex dropped, done_cv.notify_all outstanding
    | Exited

  datatype WaitKind = Timed | Untimed | Release

  datatype Client =
    | Idle
    | Pushed(all: bool)                      // cv.notify_one / notify_all outstanding
    | ItemLock(item: nat, kind: WaitKind)    // fast path saw `completed` false
    | ItemAsleep(item: nat, kind: WaitKind)  // inside done_cv.wait
    | ItemAwake(item: nat, kind: WaitKind)   // woken, mutex not yet retaken
    | Releasing(item: nat)                   // about to delete the item
    | QueueAsleep(timed: bool)
    | QueueAwake(timed: bool)
    | FreeSignal                             // should_exit stored, cv.notify_all outstanding
    | FreeJoin                               // joining the workers

  datatype State = State(
    items: seq<Item>,
    queue: seq<nat>,
    pending: int,
    queueWaiters: int,
    shouldExit: bool,
    lock: Option<nat>,
    workers: seq<Worker>,
    clients: seq<Client>,
    queueFreed: bool)

  /** `osd_work_queue_alloc`: the number of worker threads.  `forced` and `maxThreads`
      are the two environment overrides, `cores` is hardware_concurrency. */
  function NumThreads(multi: bool, forced: Option<int>, cores: nat, maxThreads: Option<int>): (n: nat)
    ensures 1 <= n <= WORK_MAX_THREADS
    ensures !multi ==> n == 1
    ensures maxThreads.Some? && maxThreads.value > 0 ==> n <= maxThreads.value
  {
    var a: int := if !multi then 1
                  else if forced.Some? && forced.value > 0 then forced.value
                  else cores;
    var b: int := if multi && a == 0 then 1 else a;
    var c: int := if maxThreads.Some? && maxThreads.value > 0 && maxThreads.value < b then maxThreads.value else b;
    if c > WORK_MAX_THREADS then WORK_MAX_THREADS else c
  }

  predicate Init(s: State)
  {
    && 1 <= |s.workers| <= WORK_MAX_THREADS
    && s.items == [] && s.queue == [] && s.pending == 0 && s.queueWaiters == 0
    && !s.shouldExit && s.lock == None && !s.queueFreed
    && (forall w :: 0 <= w < |s.workers| ==> s.workers[w] == Ready)
    && (forall c :: 0 <= c < |s.clients| ==> s.clients[c] == Idle)
  }

  // ----- steps -----

  datatype Step =
    // worker_thread
    | WorkerTest(w: nat)
    | WorkerSpurious(w: nat)
    | WorkerCall(w: nat)
    | WorkerDrop(w: nat)
    | WorkerLock(w: nat)
    | WorkerPublish(w: nat)
    | WorkerUnlock(w: nat)
    | WorkerNotify(w: nat)
    // osd_work_item_queue_multiple
    | Push(c: nat, n: nat, auto: bool)
    | NotifyOne(c: nat, woken: Option<nat>)
    | NotifyAll(c: nat)
    // osd_work_item_wait, osd_work_item_release
    | WaitItem(c: nat, i: nat, kind: WaitKind)
    | WaitItemLock(c: nat)
    | WaitItemRetest(c: nat)
    | WaitItemWake(c: nat)
    | WaitItemTimeout(c: nat)
    | Delete(c: nat)
    // osd_work_queue_wait
    | WaitQueue(c: nat, timed: bool)
    | WaitQueueRetest(c: nat)
    | WaitQueueWake(c: nat)
    | WaitQueueTimeout(c: nat)
    // osd_work_queue_free
    | FreeStart(c: nat)
    | FreeNotify(c: nat)
    | FreeFinish(c: nat)

  predicate WorkerAt(s: State, w: nat) { w < |s.workers| }

  predicate ClientAt(s: State, c: nat) { c < |s.clients| }

  /** Some client other than `c` is inside a call that mentions item `i`. */
  predicate OtherRefers(s: State, c: nat, i: nat)
  {
    exists d :: 0 <= d < |s.clients| && d != c && Refers(s.clients[d], i)
  }

  predicate Refers(p: Client, i: nat)
  {
    match p
    case ItemLock(j, _) => j == i
    case ItemAsleep(j, _) => j == i
    case ItemAwake(j, _) => j == i
    case Releasing(j) => j == i
    case _ => false
  }

  predicate AllIdleBut(s: State, c: nat)
  {
    forall d :: 0 <= d < |s.clients| && d != c ==> s.clients[d] == Idle
  }

  predicate AllExited(s: State)
  {
    forall w :: 0 <= w < |s.workers| ==> s.workers[w] == Exited
  }

  predicate SomeAsleep(s: State)
  {
    exists w :: 0 <= w < |s.workers| && s.workers[w] == Asleep
  }

  /** When a step may happen: its program point, the mutex, and, for the entry of an
      API call, what the API demands of the caller. */
  predicate Enabled(s: State, t: Step)
  {
    match t
    case WorkerTest(w) => WorkerAt(s, w) && s.workers[w] == Ready && s.lock == None
    case WorkerSpurious(w) => WorkerAt(s, w) && s.workers[w] == Asleep
    case WorkerCall(w) => WorkerAt(s, w) && s.workers[w].Popped? && s.workers[w].item < |s.items|
    case WorkerDrop(w) => WorkerAt(s, w) && s.workers[w].Called? && s.workers[w].item < |s.items|
    case WorkerLock(w) =>
      && WorkerAt(s, w) && s.workers[w].Finished? && s.lock == None
      && (s.workers[w].handle.Some? ==> s.workers[w].handle.value < |s.items|)
    case WorkerPublish(w) =>
      && WorkerAt(s, w) && s.workers[w].Publishing?
      && (s.workers[w].handle.Some? ==> s.workers[w].handle.value < |s.items|)
    case WorkerUnlock(w) => WorkerAt(s, w) && s.workers[w].Published?
    case WorkerNotify(w) => WorkerAt(s, w) && s.workers[w] == Notifying
    case Push(c, n, _) => ClientAt(s, c) && s.clients[c] == Idle && s.lock == None && n >= 1 && !s.shouldExit
    case NotifyOne(c, woken) =>
      && ClientAt(s, c) && s.clients[c] == Pushed(false)
      && (if woken.Some? then WorkerAt(s, woken.value) && s.workers[woken.value] == Asleep else !SomeAsleep(s))
    case NotifyAll(c) => ClientAt(s, c) && s.clients[c] == Pushed(true)
    case WaitItem(c, i, kind) =>
      && ClientAt(s, c) && s.clients[c] == Idle && (!s.shouldExit || s.queueFreed)
      && i < |s.items| && !s.items[i].autoRelease && !s.items[i].released
      && (kind.Release? ==> !OtherRefers(s, c, i))
    case WaitItemLock(c) =>
      ClientAt(s, c) && s.clients[c].ItemLock? && s.lock == None && s.clients[c].item < |s.items|
    case WaitItemRetest(c) =>
      ClientAt(s, c) && s.clients[c].ItemAwake? && s.lock == None && s.clients[c].item < |s.items|
    case WaitItemWake(c) => ClientAt(s, c) && s.clients[c].ItemAsleep?
    case WaitItemTimeout(c) => ClientAt(s, c) && s.clients[c].ItemAsleep? && s.clients[c].kind.Timed? && s.lock == None
    case Delete(c) => ClientAt(s, c) && s.clients[c].Releasing? && s.clients[c].item < |s.items|
    case WaitQueue(c, _) => ClientAt(s, c) && s.clients[c] == Idle && s.lock == None && !s.shouldExit
    case WaitQueueRetest(c) => ClientAt(s, c) && s.clients[c].QueueAwake? && s.lock == None
    case WaitQueueWake(c) => ClientAt(s, c) && s.clients[c].QueueAsleep?
    case WaitQueueTimeout(c) => ClientAt(s, c) && s.clients[c] == QueueAsleep(true) && s.lock == None
    case FreeStart(c) =>
      ClientAt(s, c) && s.clients[c] == Idle && s.lock == None && !s.shouldExit && AllIdleBut(s, c)
    case FreeNotify(c) => ClientAt(s, c) && s.clients[c] == FreeSignal
    case FreeFinish(c) => ClientAt(s, c) && s.clients[c] == FreeJoin && AllExited(s)
  }

  function Fresh(n: nat, auto: bool): (r: seq<Item>)
    ensures |r| == n
  {
    seq(n, _ => Item(auto, 0, false, false, false, false))
  }

  function Ids(first: nat, n: nat): (r: seq<nat>)
    ensures |r| == n
  {
    seq(n, k requires 0 <= k => first + k)
  }

  /** cv.notify_all: every sleeping worker becomes ready. */
  function WakeWorkers(ws: seq<Worker>): (r: seq<Worker>)
    ensures |r| == |ws|
  {
    seq(|ws|, k requires 0 <= k < |ws| => if ws[k] == Asleep then Ready else ws[k])
  }

  function Awake(p: Client): Client
  {
    match p
    case ItemAsleep(i, kind) => ItemAwake(i, kind)
    case QueueAsleep(timed) => QueueAwake(timed)
    case _ => p
  }

  /** done_cv.notify_all. */
  function WakeClients(cs: seq<Client>): (r: seq<Client>)
    ensures |r| == |cs|
  {
    seq(|cs|, k requires 0 <= k < |cs| => Awake(cs[k]))
  }

  function SetWorker(s: State, w: nat, p: Worker): State
    requires WorkerAt(s, w)
  {
    s.(workers := s.workers[w := p])
  }

  function SetClient(s: State, c: nat, p: Client): State
    requires ClientAt(s, c)
  {
    s.(clients := s.clients[c := p])
  }

  /** Where a completed wait continues: `osd_work_item_release` goes on to delete. */
  function AfterWait(i: nat, kind: WaitKind): Client
  {
    if kind.Release? then Releasing(i) else Idle
  }

  function Apply(s: State, t: Step): State
    requires Enabled(s, t)
  {
    match t
    case WorkerTest(w) =>
      if s.queue == [] && s.shouldExit then SetWorker(s, w, Exited)
      else if s.queue == [] then SetWorker(s, w, Asleep)
      else SetWorker(s, w, Popped(s.queue[0])).(queue := s.queue[1..])
    case WorkerSpurious(w) => SetWorker(s, w, Ready)
    case WorkerCall(w) =>
      var i := s.workers[w].item;
      SetWorker(s, w, Called(i)).(items := s.items[i := s.items[i].(runs := s.items[i].runs + 1)])
    case WorkerDrop(w) =>
      var i := s.workers[w].item;
      if s.items[i].autoRelease
      then SetWorker(s, w, Finished(None)).(items := s.items[i := s.items[i].(freed := true)])
      else SetWorker(s, w, Finished(Some(i)))
    case WorkerLock(w) =>
      var h := s.workers[w].handle;
      var wake := (h.Some? && s.items[h.value].waitedOn) || (s.queueWaiters > 0 && s.pending - 1 == 0);
      SetWorker(s, w, Publishing(h, wake)).(pending := s.pending - 1, lock := Some(w))
    case WorkerPublish(w) =>
      var Publishing(h, wake) := s.workers[w];
      var s1 := SetWorker(s, w, Published(wake));
      if h.Some? then s1.(items := s.items[h.value := s.items[h.value].(completed := true)]) else s1
    case WorkerUnlock(w) =>
      SetWorker(s, w, if s.workers[w].wake then Notifying else Ready).(lock := None)
    case WorkerNotify(w) => SetWorker(s, w, Ready).(clients := WakeClients(s.clients))
    case Push(c, n, auto) =>
      SetClient(s, c, Pushed(n != 1)).(
        items := s.items + Fresh(n, auto),
        queue := s.queue + Ids(|s.items|, n),
        pending := s.pending + n)
    case NotifyOne(c, woken) =>
      var s1 := SetClient(s, c, Idle);
      if woken.Some? then SetWorker(s1, woken.value, Ready) else s1
    case NotifyAll(c) => SetClient(s, c, Idle).(workers := WakeWorkers(s.workers))
    case WaitItem(c, i, kind) =>
      var s1 := if kind.Release? then s.(items := s.items[i := s.items[i].(released := true)]) else s;
      if s.items[i].completed then SetClient(s1, c, AfterWait(i, kind)) else SetClient(s1, c, ItemLock(i, kind))
    case WaitItemLock(c) =>
      var ItemLock(i, kind) := s.clients[c];
      var s1 := s.(items := s.items[i := s.items[i].(waitedOn := true)]);
      if s.items[i].completed then SetClient(s1, c, AfterWait(i, kind)) else SetClient(s1, c, ItemAsleep(i, kind))
    case WaitItemRetest(c) =>
      var ItemAwake(i, kind) := s.clients[c];
      if s.items[i].completed then SetClient(s, c, AfterWait(i, kind)) else SetClient(s, c, ItemAsleep(i, kind))
    case WaitItemWake(c) => SetClient(s, c, Awake(s.clients[c]))
    case WaitItemTimeout(c) => SetClient(s, c, Idle)
    case Delete(c) =>
      var i := s.clients[c].item;
      SetClient(s, c, Idle).(items := s.items[i := s.items[i].(freed := true)])
    case WaitQueue(c, timed) =>
      if s.pending == 0 then s
      else SetClient(s, c, QueueAsleep(timed)).(queueWaiters := s.queueWaiters + 1)
    case WaitQueueRetest(c) =>
      if s.pending == 0 then SetClient(s, c, Idle).(queueWaiters := s.queueWaiters - 1)
      else SetClient(s, c, QueueAsleep(s.clients[c].timed))
    case WaitQueueWake(c) => SetClient(s, c, Awake(s.clients[c]))
    case WaitQueueTimeout(c) => SetClient(s, c, Idle).(queueWaiters := s.queueWaiters - 1)
    case FreeStart(c) => SetClient(s, c, FreeSignal).(shouldExit := true)
    case FreeNotify(c) => SetClient(s, c, FreeJoin).(workers := WakeWorkers(s.workers))
    case FreeFinish(c) => SetClient(s, c, Idle).(queueFreed := true)
  }

  // ----- runs -----

  /** `steps` is a possible run from `s`. */
  predicate CanRun(s: State, steps: seq<Step>)
    decreases |steps|
  {
    steps == [] || (Enabled(s, steps[0]) && CanRun(Apply(s, steps[0]), steps[1..]))
  }

  function RunFrom(s: State, steps: seq<Step>): State
    requires CanRun(s, steps)
    decreases |steps|
  {
    if steps == [] then s else RunFrom(Apply(s, steps[0]), steps[1..])
  }

  // ----- the inductive invariant -----

  ghost function HeldItem(p: Worker): Option<nat>
  {
    match p
    case Popped(i) => Some(i)
    case Called(i) => Some(i)
    case Finished(h) => h
    case Publishing(h, _) => h
    case _ => None
  }

  /** Counted in pending_items: taken from the queue, completion section not entered. */
  ghost predicate Counted(p: Worker) { p.Popped? || p.Called? || p.Finished? }

  ghost predicate InSection(p: Worker) { p.Publishing? || p.Published? }

  /** Has decided to call done_cv.notify_all and has not done so yet. */
  ghost predicate WillNotify(p: Worker)
  {
    (p.Publishing? && p.wake) || (p.Published? && p.wake) || p.Notifying?
  }

  ghost predicate Busy(p: Worker) { !p.Asleep? && !p.Exited? }

  ghost predicate InQueueWait(p: Client) { p.QueueAsleep? || p.QueueAwake? }

  ghost predicate Closing(p: Client) { p.FreeSignal? || p.FreeJoin? }

  /** A notify on `cv` is outstanding. */
  ghost predicate WillSignal(p: Client) { p.Pushed? || p.FreeSignal? }

  /** The item a client has committed itself to delete. */
  ghost function Target(p: Client): Option<nat>
  {
    match p
    case ItemLock(i, k) => if k.Release? then Some(i) else None
    case ItemAsleep(i, k) => if k.Release? then Some(i) else None
    case ItemAwake(i, k) => if k.Release? then Some(i) else None
    case Releasing(i) => Some(i)
    case _ => None
  }

  ghost function CountWorkers(ws: seq<Worker>): nat
  {
    if ws == [] then 0 else (if Counted(ws[0]) then 1 else 0) + CountWorkers(ws[1..])
  }

  ghost function CountWaiters(cs: seq<Client>): nat
  {
    if cs == [] then 0 else (if InQueueWait(cs[0]) then 1 else 0) + CountWaiters(cs[1..])
  }

  ghost predicate Held(ws: seq<Worker>, i: nat) { exists w :: 0 <= w < |ws| && HeldItem(ws[w]) == Some(i) }

  ghost predicate SomeBusy(ws: seq<Worker>) { exists w :: 0 <= w < |ws| && Busy(ws[w]) }

  ghost predicate SomeWillNotify(ws: seq<Worker>) { exists w :: 0 <= w < |ws| && WillNotify(ws[w]) }

  ghost predicate SomeWillSignal(cs: seq<Client>) { exists c :: 0 <= c < |cs| && WillSignal(cs[c]) }

  ghost predicate SomeFreeSignal(cs: seq<Client>) { exists c :: 0 <= c < |cs| && cs[c].FreeSignal? }

  /** Nothing more will happen to the item on the workers' side. */
  ghost predicate Done(it: Item) { it.runs == 1 && (if it.autoRelease then it.freed else it.completed) }

  ghost predicate ItemOk(it: Item)
  {
    && it.runs <= 1
    && (it.completed ==> it.runs == 1 && !it.autoRelease)
    && (it.freed ==> it.runs == 1 && (it.autoRelease || (it.completed && it.released)))
  }

  ghost predicate ItemsOk(items: seq<Item>)
  {
    forall i :: 0 <= i < |items| ==> ItemOk(items[i])
  }

  ghost predicate QueueOk(items: seq<Item>, queue: seq<nat>)
  {
    && (forall k :: 0 <= k < |queue| ==> queue[k] < |items| && items[queue[k]].runs == 0)
    && (forall j, k :: 0 <= j < k < |queue| ==> queue[j] != queue[k])
  }

  ghost predicate HeldOk(items: seq<Item>, queue: seq<nat>, p: Worker)
  {
    HeldItem(p).Some? ==>
      var i := HeldItem(p).value;
      && i < |items| && !items[i].completed && !items[i].freed
      && (p.Popped? ==> items[i].runs == 0 && i !in queue)
      && (!p.Popped? ==> items[i].runs == 1)
      && (p.Finished? || p.Publishing? ==> !items[i].autoRelease)
      && (p.Publishing? && items[i].waitedOn ==> p.wake)
  }

  ghost predicate HoldersOk(items: seq<Item>, queue: seq<nat>, ws: seq<Worker>)
  {
    && (forall w :: 0 <= w < |ws| ==> HeldOk(items, queue, ws[w]))
    && (forall v, w :: 0 <= v < w < |ws| && HeldItem(ws[v]).Some? ==> HeldItem(ws[v]) != HeldItem(ws[w]))
  }

  ghost predicate PlacesOk(items: seq<Item>, queue: seq<nat>, ws: seq<Worker>)
  {
    forall i :: 0 <= i < |items| ==> Done(items[i]) || i in queue || Held(ws, i)
  }

  ghost predicate LockOk(lock: Option<nat>, ws: seq<Worker>)
  {
    && (lock.Some? ==> lock.value < |ws| && InSection(ws[lock.value]))
    && (forall w :: 0 <= w < |ws| && InSection(ws[w]) ==> lock == Some(w))
  }

  /** Queued work and a pending shutdown are always noticed. */
  ghost predicate WakeOk(queue: seq<nat>, shouldExit: bool, ws: seq<Worker>, cs: seq<Client>)
  {
    && 1 <= |ws| <= WORK_MAX_THREADS
    && (queue != [] ==> SomeBusy(ws) || SomeWillSignal(cs))
    && (forall w :: 0 <= w < |ws| && ws[w].Exited? ==> shouldExit && queue == [])
    && (forall w :: 0 <= w < |ws| && ws[w].Asleep? && shouldExit ==> SomeFreeSignal(cs))
  }

  ghost predicate WaitingOk(items: seq<Item>, i: nat, k: WaitKind)
  {
    i < |items| && !items[i].autoRelease && !items[i].freed && (k.Release? <==> items[i].released)
  }

  /** `notify`: some worker will notify done_cv. */
  ghost predicate ClientOk(items: seq<Item>, pending: int, notify: bool, p: Client)
  {
    match p
    case ItemLock(i, k) => WaitingOk(items, i, k)
    case ItemAsleep(i, k) => WaitingOk(items, i, k) && items[i].waitedOn && (items[i].completed ==> notify)
    case ItemAwake(i, k) => WaitingOk(items, i, k) && items[i].waitedOn
    case Releasing(i) => i < |items| && items[i].completed && items[i].released && !items[i].freed
    case QueueAsleep(_) => pending == 0 ==> notify
    case _ => true
  }

  ghost predicate ClientsOk(items: seq<Item>, pending: int, notify: bool, cs: seq<Client>)
  {
    forall c :: 0 <= c < |cs| ==> ClientOk(items, pending, notify, cs[c])
  }

  ghost predicate TargetsOk(cs: seq<Client>)
  {
    forall c, d :: 0 <= c < d < |cs| && Target(cs[c]).Some? ==> Target(cs[c]) != Target(cs[d])
  }

  ghost predicate IdleBut(cs: seq<Client>, c: nat)
  {
    forall d :: 0 <= d < |cs| && d != c ==> cs[d] == Idle
  }

  ghost predicate ClosingOk(shouldExit: bool, queueFreed: bool, ws: seq<Worker>, cs: seq<Client>)
  {
    && (queueFreed ==> shouldExit)
    && (queueFreed ==> forall w :: 0 <= w < |ws| ==> ws[w].Exited?)
    && (queueFreed ==> forall c :: 0 <= c < |cs| ==> cs[c].Idle? || cs[c].Releasing?)
    && (shouldExit && !queueFreed ==> exists c :: 0 <= c < |cs| && Closing(cs[c]) && IdleBut(cs, c))
    && (!shouldExit ==> forall c :: 0 <= c < |cs| ==> !Closing(cs[c]))
  }

  ghost predicate CountsOk(s: State)
  {
    && s.pending == |s.queue| + CountWorkers(s.workers)
    && s.queueWaiters == CountWaiters(s.clients)
  }

  ghost predicate Inv(s: State)
  {
    var items := ItemsOk(s.items) && QueueOk(s.items, s.queue);
    var holders := HoldersOk(s.items, s.queue, s.workers) && PlacesOk(s.items, s.queue, s.workers);
    var wakes := LockOk(s.lock, s.workers) && WakeOk(s.queue, s.shouldExit, s.workers, s.clients);
    var clients := ClientsOk(s.items, s.pending, SomeWillNotify(s.workers), s.clients) && TargetsOk(s.clients);
    var closing := ClosingOk(s.shouldExit, s.queueFreed, s.workers, s.clients);
    items && holders && wakes && clients && closing && CountsOk(s)
  }

  // ----- counting -----

  lemma {:induction false} CountWorkersUpdate(ws: seq<Worker>, w: nat, p: Worker)
    requires w < |ws|
    ensures CountWorkers(ws[w := p]) ==
            CountWorkers(ws) - (if Counted(ws[w]) then 1 else 0) + (if Counted(p) then 1 else 0)
  {
    if w == 0 {
      assert ws[w := p][1..] == ws[1..];
    } else {
      assert ws[w := p][1..] == ws[1..][w - 1 := p];
      CountWorkersUpdate(ws[1..], w - 1, p);
    }
  }

  lemma {:induction false} CountWorkersWake(ws: seq<Worker>)
    ensures CountWorkers(WakeWorkers(ws)) == CountWorkers(ws)
  {
    if ws != [] {
      assert WakeWorkers(ws)[1..] == WakeWorkers(ws[1..]);
      CountWorkersWake(ws[1..]);
    }
  }

  lemma {:induction false} CountWaitersUpdate(cs: seq<Client>, c: nat, p: Client)
    requires c < |cs|
    ensures CountWaiters(cs[c := p]) ==
            CountWaiters(cs) - (if InQueueWait(cs[c]) then 1 else 0) + (if InQueueWait(p) then 1 else 0)
  {
    if c == 0 {
      assert cs[c := p][1..] == cs[1..];
    } else {
      assert cs[c := p][1..] == cs[1..][c - 1 := p];
      CountWaitersUpdate(cs[1..], c - 1, p);
    }
  }

  lemma {:induction false} CountWaitersWake(cs: seq<Client>)
    ensures CountWaiters(WakeClients(cs)) == CountWaiters(cs)
  {
    if cs != [] {
      assert WakeClients(cs)[1..] == WakeClients(cs[1..]);
      CountWaitersWake(cs[1..]);
    }
  }

  lemma {:induction false} WaiterIsCounted(cs: seq<Client>, c: nat)
    requires c < |cs| && InQueueWait(cs[c])
    ensures CountWaiters(cs) > 0
  {
    if c > 0 {
      WaiterIsCounted(cs[1..], c - 1);
    }
  }

  lemma {:induction false} CountedWorker(ws: seq<Worker>)
    requires CountWorkers(ws) > 0
    ensures exists w :: 0 <= w < |ws| && Counted(ws[w])
  {
    if Counted(ws[0]) {
    } else {
      CountedWorker(ws[1..]);
      var w :| 0 <= w < |ws[1..]| && Counted(ws[1..][w]);
      assert Counted(ws[w + 1]);
    }
  }

  // ----- how one worker's move affects the facts about workers -----

  lemma {:induction false} PlacesMove(items: seq<Item>, items': seq<Item>, queue: seq<nat>, ws: seq<Worker>, w: nat, p: Worker)
    requires PlacesOk(items, queue, ws) && w < |ws| && |items'| == |items|
    requires forall i :: 0 <= i < |items| && Done(items[i]) ==> Done(items'[i])
    requires HeldItem(p) == HeldItem(ws[w]) ||
             (HeldItem(ws[w]).Some? && HeldItem(ws[w]).value < |items| ==> Done(items'[HeldItem(ws[w]).value]))
    ensures PlacesOk(items', queue, ws[w := p])
  {
    forall i | 0 <= i < |items'| ensures Done(items'[i]) || i in queue || Held(ws[w := p], i) {
      if !Done(items'[i]) && i !in queue {
        var v :| 0 <= v < |ws| && HeldItem(ws[v]) == Some(i);
        assert HeldItem(ws[w := p][v]) == Some(i);
      }
    }
  }

  lemma {:induction false} PlacesPop(items: seq<Item>, queue: seq<nat>, ws: seq<Worker>, w: nat)
    requires PlacesOk(items, queue, ws) && w < |ws| && queue != [] && HeldItem(ws[w]).None?
    ensures PlacesOk(items, queue[1..], ws[w := Popped(queue[0])])
  {
    var vs := ws[w := Popped(queue[0])];
    forall i | 0 <= i < |items| ensures Done(items[i]) || i in queue[1..] || Held(vs, i) {
      if !Done(items[i]) && i !in queue[1..] {
        if i in queue {
          assert i == queue[0] && HeldItem(vs[w]) == Some(i);
        } else {
          var v :| 0 <= v < |ws| && HeldItem(ws[v]) == Some(i);
          assert HeldItem(vs[v]) == Some(i);
        }
      }
    }
  }

  lemma {:induction false} PlacesWake(items: seq<Item>, queue: seq<nat>, ws: seq<Worker>)
    requires PlacesOk(items, queue, ws)
    ensures PlacesOk(items, queue, WakeWorkers(ws))
  {
    forall i | 0 <= i < |items| ensures Done(items[i]) || i in queue || Held(WakeWorkers(ws), i) {
      if !Done(items[i]) && i !in queue {
        var v :| 0 <= v < |ws| && HeldItem(ws[v]) == Some(i);
        assert HeldItem(WakeWorkers(ws)[v]) == Some(i);
      }
    }
  }

  lemma {:induction false} BusyMove(queue: seq<nat>, shouldExit: bool, ws: seq<Worker>, cs: seq<Client>, w: nat, p: Worker)
    requires WakeOk(queue, shouldExit, ws, cs) && w < |ws|
    requires Busy(p)
    ensures WakeOk(queue, shouldExit, ws[w := p], cs)
  {
    assert Busy(ws[w := p][w]);
  }

  lemma {:induction false} NotifyMove(ws: seq<Worker>, w: nat, p: Worker)
    requires w < |ws|
    requires WillNotify(ws[w]) ==> WillNotify(p)
    ensures SomeWillNotify(ws) ==> SomeWillNotify(ws[w := p])
    ensures WillNotify(p) ==> SomeWillNotify(ws[w := p])
  {
    if SomeWillNotify(ws) {
      var v :| 0 <= v < |ws| && WillNotify(ws[v]);
      assert WillNotify(ws[w := p][v]);
    }
    assert ws[w := p][w] == p;
  }

  lemma {:induction false} ClosingMove(shouldExit: bool, queueFreed: bool, ws: seq<Worker>, cs: seq<Client>, w: nat, p: Worker)
    requires ClosingOk(shouldExit, queueFreed, ws, cs) && w < |ws| && !ws[w].Exited?
    ensures ClosingOk(shouldExit, queueFreed, ws[w := p], cs)
  {
  }

  /** The worker's item may change, every other item is untouched. */
  ghost predicate OnlyHeldChanges(items: seq<Item>, items': seq<Item>, p: Worker)
  {
    && |items'| == |items|
    && (forall i :: 0 <= i < |items| && HeldItem(p) != Some(i) ==> items'[i] == items[i])
  }

  lemma {:induction false} HoldersMove(items: seq<Item>, items': seq<Item>, queue: seq<nat>, ws: seq<Worker>, w: nat, p: Worker)
    requires HoldersOk(items, queue, ws) && w < |ws|
    requires OnlyHeldChanges(items, items', ws[w])
    requires HeldItem(p).None? || HeldItem(p) == HeldItem(ws[w])
    requires HeldOk(items', queue, p)
    ensures HoldersOk(items', queue, ws[w := p])
  {
    var vs := ws[w := p];
    forall v | 0 <= v < |vs| ensures HeldOk(items', queue, vs[v]) {
      if v != w {
        assert HeldOk(items, queue, ws[v]);
      }
    }
  }

  lemma {:induction false} HoldersPop(items: seq<Item>, queue: seq<nat>, ws: seq<Worker>, w: nat)
    requires HoldersOk(items, queue, ws) && w < |ws| && queue != []
    requires ItemsOk(items) && QueueOk(items, queue)
    ensures HoldersOk(items, queue[1..], ws[w := Popped(queue[0])])
  {
    var vs := ws[w := Popped(queue[0])];
    forall v | 0 <= v < |vs|
      ensures HeldOk(items, queue[1..], vs[v])
      ensures v != w ==> HeldItem(vs[v]) != Some(queue[0])
    {
      if v != w {
        assert HeldOk(items, queue, ws[v]);
      } else {
        assert ItemOk(items[queue[0]]);
      }
    }
  }

  lemma {:induction false} HoldersWake(items: seq<Item>, queue: seq<nat>, ws: seq<Worker>)
    requires HoldersOk(items, queue, ws)
    ensures HoldersOk(items, queue, WakeWorkers(ws))
  {
    forall v | 0 <= v < |ws| ensures HeldOk(items, queue, WakeWorkers(ws)[v]) {
      assert HeldOk(items, queue, ws[v]);
    }
    assert forall v :: 0 <= v < |ws| ==> HeldItem(WakeWorkers(ws)[v]) == HeldItem(ws[v]);
  }

  lemma {:induction false} LockMove(lock: Option<nat>, lock': Option<nat>, ws: seq<Worker>, w: nat, p: Worker)
    requires LockOk(lock, ws) && w < |ws|
    requires lock' == lock || lock == None || lock == Some(w)
    requires InSection(p) ==> lock' == Some(w)
    requires !InSection(p) ==> lock' == if lock == Some(w) then None else lock
    ensures LockOk(lock', ws[w := p])
  {
  }

  /** A queued item is not the one a worker holds past its callback. */
  lemma {:induction false} QueueMove(items: seq<Item>, items': seq<Item>, queue: seq<nat>, p: Worker)
    requires QueueOk(items, queue) && HeldOk(items, queue, p) && OnlyHeldChanges(items, items', p)
    ensures QueueOk(items', queue)
  {
    forall k | 0 <= k < |queue| ensures items'[queue[k]] == items[queue[k]] {
      assert HeldItem(p) != Some(queue[k]);
    }
  }

  // ----- preservation by the workers' steps -----

  lemma {:induction false} TestSleepsOrExits(s: State, w: nat)
    requires Inv(s) && Enabled(s, WorkerTest(w)) && s.queue == []
    ensures Inv(Apply(s, WorkerTest(w)))
  {
    var r := Apply(s, WorkerTest(w));
    var p := if s.shouldExit then Exited else Asleep;
    assert r == SetWorker(s, w, p);
    assert CountsOk(r) by { CountWorkersUpdate(s.workers, w, p); }
    assert HoldersOk(r.items, r.queue, r.workers) by { HoldersMove(s.items, s.items, s.queue, s.workers, w, p); }
    assert PlacesOk(r.items, r.queue, r.workers) by { PlacesMove(s.items, s.items, s.queue, s.workers, w, p); }
    assert LockOk(r.lock, r.workers) by { LockMove(s.lock, s.lock, s.workers, w, p); }
    assert ClosingOk(r.shouldExit, r.queueFreed, r.workers, r.clients) by {
      ClosingMove(s.shouldExit, s.queueFreed, s.workers, s.clients, w, p);
    }
    NotifyMove(s.workers, w, p);
  }

  lemma {:induction false} TestPops(s: State, w: nat)
    requires Inv(s) && Enabled(s, WorkerTest(w)) && s.queue != []
    ensures Inv(Apply(s, WorkerTest(w)))
  {
    var r := Apply(s, WorkerTest(w));
    var p := Popped(s.queue[0]);
    assert CountsOk(r) by { CountWorkersUpdate(s.workers, w, p); }
    assert QueueOk(r.items, r.queue);
    assert HoldersOk(r.items, r.queue, r.workers) by { HoldersPop(s.items, s.queue, s.workers, w); }
    assert PlacesOk(r.items, r.queue, r.workers) by { PlacesPop(s.items, s.queue, s.workers, w); }
    assert LockOk(r.lock, r.workers) by { LockMove(s.lock, s.lock, s.workers, w, p); }
    assert WakeOk(r.queue, r.shouldExit, r.workers, r.clients) by {
      BusyMove(s.queue, s.shouldExit, s.workers, s.clients, w, p);
    }
    assert ClosingOk(r.shouldExit, r.queueFreed, r.workers, r.clients) by {
      ClosingMove(s.shouldExit, s.queueFreed, s.workers, s.clients, w, p);
    }
    NotifyMove(s.workers, w, p);
  }

  /** A move of worker `w` to a busy point that may change the item it holds, the mutex
      and pending_items. */
  lemma {:induction false} WorkerMove(s: State, r: State, w: nat, p: Worker)
    requires Inv(s) && w < |s.workers| && !s.workers[w].Exited? && Busy(p)
    requires r == s.(workers := s.workers[w := p], items := r.items, lock := r.lock, pending := r.pending)
    requires OnlyHeldChanges(s.items, r.items, s.workers[w]) && ItemsOk(r.items)
    requires forall i :: 0 <= i < |s.items| && Done(s.items[i]) ==> Done(r.items[i])
    requires HeldItem(p) == HeldItem(s.workers[w]) ||
             (HeldItem(p).None? &&
              (HeldItem(s.workers[w]).Some? ==>
                 var i := HeldItem(s.workers[w]).value; i < |s.items| ==> Done(r.items[i])))
    requires HeldOk(r.items, s.queue, p)
    requires r.lock == s.lock || s.lock == None || s.lock == Some(w)
    requires InSection(p) ==> r.lock == Some(w)
    requires !InSection(p) ==> r.lock == if s.lock == Some(w) then None else s.lock
    requires r.pending == s.pending - (if Counted(s.workers[w]) then 1 else 0) + (if Counted(p) then 1 else 0)
    requires ClientsOk(r.items, r.pending, SomeWillNotify(r.workers), r.clients)
    ensures Inv(r)
  {
    assert CountsOk(r) by { CountWorkersUpdate(s.workers, w, p); }
    assert QueueOk(r.items, r.queue) by { QueueMove(s.items, r.items, s.queue, s.workers[w]); }
    assert HoldersOk(r.items, r.queue, r.workers) by { HoldersMove(s.items, r.items, s.queue, s.workers, w, p); }
    assert PlacesOk(r.items, r.queue, r.workers) by { PlacesMove(s.items, r.items, s.queue, s.workers, w, p); }
    assert LockOk(r.lock, r.workers) by { LockMove(s.lock, r.lock, s.workers, w, p); }
    assert WakeOk(r.queue, r.shouldExit, r.workers, r.clients) by {
      BusyMove(s.queue, s.shouldExit, s.workers, s.clients, w, p);
    }
    assert ClosingOk(r.shouldExit, r.queueFreed, r.workers, r.clients) by {
      ClosingMove(s.shouldExit, s.queueFreed, s.workers, s.clients, w, p);
    }
  }

  /** Items that change only in `runs`, or become freed while no client refers to them,
      mean the same to every client. */
  lemma {:induction false} ClientsKeep(items: seq<Item>, items': seq<Item>, pending: int, notify: bool, notify': bool, cs: seq<Client>)
    requires ClientsOk(items, pending, notify, cs) && (notify ==> notify') && |items'| == |items|
    requires forall i :: 0 <= i < |items| ==>
               && items'[i].autoRelease == items[i].autoRelease && items'[i].completed == items[i].completed
               && items'[i].waitedOn == items[i].waitedOn && items'[i].released == items[i].released
               && (items'[i].freed == items[i].freed || (items[i].autoRelease && !items[i].completed))
    ensures ClientsOk(items', pending, notify', cs)
  {
    forall c | 0 <= c < |cs| ensures ClientOk(items', pending, notify', cs[c]) {
      assert ClientOk(items, pending, notify, cs[c]);
    }
  }

  lemma {:induction false} WorkerCallKeepsInv(s: State, w: nat)
    requires Inv(s) && Enabled(s, WorkerCall(w))
    ensures Inv(Apply(s, WorkerCall(w)))
  {
    var r := Apply(s, WorkerCall(w));
    assert HeldOk(s.items, s.queue, s.workers[w]);
    NotifyMove(s.workers, w, r.workers[w]);
    ClientsKeep(s.items, r.items, s.pending, SomeWillNotify(s.workers), SomeWillNotify(r.workers), s.clients);
    WorkerMove(s, r, w, r.workers[w]);
  }

  /** An auto-release item is deleted. */
  lemma {:induction false} DropAuto(s: State, w: nat, i: nat, items': seq<Item>)
    requires Inv(s) && w < |s.workers| && s.workers[w] == Called(i) && i < |s.items| && s.items[i].autoRelease
    requires items' == s.items[i := s.items[i].(freed := true)]
    ensures Inv(SetWorker(s, w, Finished(None)).(items := items'))
  {
    var r := SetWorker(s, w, Finished(None)).(items := items');
    assert HeldOk(s.items, s.queue, s.workers[w]);
    NotifyMove(s.workers, w, r.workers[w]);
    ClientsKeep(s.items, items', s.pending, SomeWillNotify(s.workers), SomeWillNotify(r.workers), s.clients);
    WorkerMove(s, r, w, Finished(None));
  }

  /** Any other item is kept until its caller releases it. */
  lemma {:induction false} DropKept(s: State, w: nat, i: nat)
    requires Inv(s) && w < |s.workers| && s.workers[w] == Called(i) && i < |s.items| && !s.items[i].autoRelease
    ensures Inv(SetWorker(s, w, Finished(Some(i))))
  {
    var r := SetWorker(s, w, Finished(Some(i)));
    assert HeldOk(s.items, s.queue, s.workers[w]);
    NotifyMove(s.workers, w, r.workers[w]);
    ClientsKeep(s.items, s.items, s.pending, SomeWillNotify(s.workers), SomeWillNotify(r.workers), s.clients);
    WorkerMove(s, r, w, Finished(Some(i)));
  }

  lemma {:induction false} WorkerDropKeepsInv(s: State, w: nat)
    requires Inv(s) && Enabled(s, WorkerDrop(w))
    ensures Inv(Apply(s, WorkerDrop(w)))
  {
    var i := s.workers[w].item;
    if s.items[i].autoRelease {
      DropAuto(s, w, i, s.items[i := s.items[i].(freed := true)]);
    } else {
      DropKept(s, w, i);
    }
  }

  lemma {:induction false} WorkerLockKeepsInv(s: State, w: nat)
    requires Inv(s) && Enabled(s, WorkerLock(w))
    ensures Inv(Apply(s, WorkerLock(w)))
  {
    var r := Apply(s, WorkerLock(w));
    assert HeldOk(s.items, s.queue, s.workers[w]);
    NotifyMove(s.workers, w, r.workers[w]);
    forall c | 0 <= c < |s.clients|
      ensures ClientOk(r.items, r.pending, SomeWillNotify(r.workers), s.clients[c])
    {
      assert ClientOk(s.items, s.pending, SomeWillNotify(s.workers), s.clients[c]);
      if s.clients[c].QueueAsleep? {
        WaiterIsCounted(s.clients, c);
      }
    }
    WorkerMove(s, r, w, r.workers[w]);
  }

  /** `completed` is stored: whoever sleeps on the item will be notified. */
  lemma {:induction false} PublishItem(s: State, w: nat, i: nat, wake: bool, items': seq<Item>)
    requires Inv(s) && w < |s.workers| && s.workers[w] == Publishing(Some(i), wake) && i < |s.items|
    requires items' == s.items[i := s.items[i].(completed := true)]
    ensures Inv(SetWorker(s, w, Published(wake)).(items := items'))
  {
    var r := SetWorker(s, w, Published(wake)).(items := items');
    assert HeldOk(s.items, s.queue, s.workers[w]);
    assert s.lock == Some(w);
    NotifyMove(s.workers, w, r.workers[w]);
    forall c | 0 <= c < |s.clients|
      ensures ClientOk(items', s.pending, SomeWillNotify(r.workers), s.clients[c])
    {
      assert ClientOk(s.items, s.pending, SomeWillNotify(s.workers), s.clients[c]);
    }
    WorkerMove(s, r, w, Published(wake));
  }

  lemma {:induction false} PublishNothing(s: State, w: nat, wake: bool)
    requires Inv(s) && w < |s.workers| && s.workers[w] == Publishing(None, wake)
    ensures Inv(SetWorker(s, w, Published(wake)))
  {
    var r := SetWorker(s, w, Published(wake));
    assert s.lock == Some(w);
    NotifyMove(s.workers, w, r.workers[w]);
    ClientsKeep(s.items, s.items, s.pending, SomeWillNotify(s.workers), SomeWillNotify(r.workers), s.clients);
    WorkerMove(s, r, w, Published(wake));
  }

  lemma {:induction false} WorkerPublishKeepsInv(s: State, w: nat)
    requires Inv(s) && Enabled(s, WorkerPublish(w))
    ensures Inv(Apply(s, WorkerPublish(w)))
  {
    var Publishing(h, wake) := s.workers[w];
    if h.Some? {
      PublishItem(s, w, h.value, wake, s.items[h.value := s.items[h.value].(completed := true)]);
    } else {
      PublishNothing(s, w, wake);
    }
  }

  lemma {:induction false} WorkerUnlockKeepsInv(s: State, w: nat)
    requires Inv(s) && Enabled(s, WorkerUnlock(w))
    ensures Inv(Apply(s, WorkerUnlock(w)))
  {
    var r := Apply(s, WorkerUnlock(w));
    NotifyMove(s.workers, w, r.workers[w]);
    ClientsKeep(s.items, r.items, s.pending, SomeWillNotify(s.workers), SomeWillNotify(r.workers), s.clients);
    assert s.lock == Some(w);
    WorkerMove(s, r, w, r.workers[w]);
  }

  lemma {:induction false} WorkerWakesKeepsInv(s: State, w: nat)
    requires Inv(s) && w < |s.workers| && s.workers[w] == Asleep
    ensures Inv(SetWorker(s, w, Ready))
  {
    var r := SetWorker(s, w, Ready);
    NotifyMove(s.workers, w, Ready);
    ClientsKeep(s.items, r.items, s.pending, SomeWillNotify(s.workers), SomeWillNotify(r.workers), s.clients);
    WorkerMove(s, r, w, Ready);
  }

  /** Waking every client costs nothing and settles every outstanding notify. */
  lemma {:induction false} WakeClientsKeepsInv(s: State)
    requires Inv(s)
    ensures Inv(s.(clients := WakeClients(s.clients)))
    ensures ClientsOk(s.items, s.pending, false, WakeClients(s.clients))
  {
    var cs := WakeClients(s.clients);
    CountWaitersWake(s.clients);
    forall c | 0 <= c < |cs|
      ensures ClientOk(s.items, s.pending, false, cs[c]) && Target(cs[c]) == Target(s.clients[c])
      ensures WillSignal(cs[c]) == WillSignal(s.clients[c]) && Closing(cs[c]) == Closing(s.clients[c])
      ensures cs[c].FreeSignal? == s.clients[c].FreeSignal? && (s.clients[c].Idle? ==> cs[c].Idle?)
      ensures s.clients[c].Releasing? ==> cs[c].Releasing?
    {
      assert ClientOk(s.items, s.pending, SomeWillNotify(s.workers), s.clients[c]);
    }
    SignalsSame(s.clients, cs);
    ClosingSame(s.shouldExit, s.queueFreed, s.workers, s.clients, cs);
  }

  lemma {:induction false} SignalsSame(cs: seq<Client>, ds: seq<Client>)
    requires |ds| == |cs|
    requires forall c :: 0 <= c < |cs| ==> WillSignal(ds[c]) == WillSignal(cs[c])
    requires forall c :: 0 <= c < |cs| ==> ds[c].FreeSignal? == cs[c].FreeSignal?
    ensures SomeWillSignal(cs) ==> SomeWillSignal(ds)
    ensures SomeFreeSignal(cs) ==> SomeFreeSignal(ds)
  {
    if SomeWillSignal(cs) {
      var c :| 0 <= c < |cs| && WillSignal(cs[c]);
      assert WillSignal(ds[c]);
    }
    if SomeFreeSignal(cs) {
      var c :| 0 <= c < |cs| && cs[c].FreeSignal?;
      assert ds[c].FreeSignal?;
    }
  }

  lemma {:induction false} ClosingSame(shouldExit: bool, queueFreed: bool, ws: seq<Worker>, cs: seq<Client>, ds: seq<Client>)
    requires ClosingOk(shouldExit, queueFreed, ws, cs) && |ds| == |cs|
    requires forall c :: 0 <= c < |cs| ==> Closing(ds[c]) == Closing(cs[c])
    requires forall c :: 0 <= c < |cs| && cs[c].Idle? ==> ds[c].Idle?
    requires forall c :: 0 <= c < |cs| && cs[c].Releasing? ==> ds[c].Releasing?
    ensures ClosingOk(shouldExit, queueFreed, ws, ds)
  {
    if shouldExit && !queueFreed {
      var c :| 0 <= c < |cs| && Closing(cs[c]) && IdleBut(cs, c);
      assert Closing(ds[c]) && IdleBut(ds, c);
    }
  }

  lemma {:induction false} WorkerNotifyKeepsInv(s: State, w: nat)
    requires Inv(s) && Enabled(s, WorkerNotify(w))
    ensures Inv(Apply(s, WorkerNotify(w)))
  {
    var s1 := s.(clients := WakeClients(s.clients));
    WakeClientsKeepsInv(s);
    var r := Apply(s, WorkerNotify(w));
    assert r == SetWorker(s1, w, Ready);
    ClientsKeep(s.items, s.items, s.pending, false, SomeWillNotify(r.workers), s1.clients);
    WorkerMove(s1, r, w, Ready);
  }

  // ----- preservation by the clients' steps -----

  /** A client's own move that touches nothing else but queue_waiters. */
  lemma {:induction false} ClientMove(s: State, r: State, c: nat, p: Client)
    requires Inv(s) && c < |s.clients| && !Closing(s.clients[c]) && !Closing(p)
    requires r == s.(clients := s.clients[c := p], queueWaiters := r.queueWaiters)
    requires r.queueWaiters ==
             s.queueWaiters - (if InQueueWait(s.clients[c]) then 1 else 0) + (if InQueueWait(p) then 1 else 0)
    requires ClientOk(s.items, s.pending, SomeWillNotify(s.workers), p)
    requires Target(p).Some? && Target(p) != Target(s.clients[c]) ==>
               forall d :: 0 <= d < |s.clients| && d != c ==> Target(s.clients[d]) != Target(p)
    requires s.shouldExit ==> s.queueFreed && (p.Idle? || p.Releasing?)
    requires s.clients[c].Pushed? ==> SomeBusy(s.workers) || s.queue == []
    ensures Inv(r)
  {
    var cs := s.clients[c := p];
    assert CountsOk(r) by { CountWaitersUpdate(s.clients, c, p); }
    assert ClientsOk(s.items, s.pending, SomeWillNotify(s.workers), cs);
    assert TargetsOk(cs);
    assert WakeOk(s.queue, s.shouldExit, s.workers, cs) by {
      if !s.clients[c].Pushed? && SomeWillSignal(s.clients) {
        var d :| 0 <= d < |s.clients| && WillSignal(s.clients[d]);
        assert WillSignal(cs[d]);
      }
    }
    assert ClosingOk(s.shouldExit, s.queueFreed, s.workers, cs);
  }

  /** A client in the middle of a call other than `free` sees the queue open, or the
      queue already freed with every item done. */
  lemma {:induction false} NotClosing(s: State, c: nat)
    requires Inv(s) && c < |s.clients| && !s.clients[c].Idle? && !Closing(s.clients[c])
    ensures s.shouldExit ==> s.queueFreed && s.clients[c].Releasing?
  {
  }

  lemma {:induction false} FreedMeansDone(s: State, i: nat)
    requires Inv(s) && s.queueFreed && i < |s.items|
    ensures Done(s.items[i])
  {
    assert s.workers[0].Exited?;
    assert forall w :: 0 <= w < |s.workers| ==> HeldItem(s.workers[w]).None?;
    assert !Held(s.workers, i);
  }

  /** Marking an item waited-on (mutex free), released, or freed (once completed). */
  lemma {:induction false} ItemMove(s: State, items': seq<Item>)
    requires Inv(s) && |items'| == |s.items| && ItemsOk(items')
    requires forall i :: 0 <= i < |s.items| ==>
               && items'[i].autoRelease == s.items[i].autoRelease && items'[i].runs == s.items[i].runs
               && items'[i].completed == s.items[i].completed
               && (items'[i].freed != s.items[i].freed ==> s.items[i].completed)
               && (items'[i].waitedOn != s.items[i].waitedOn ==> s.lock == None)
    requires ClientsOk(items', s.pending, SomeWillNotify(s.workers), s.clients)
    ensures Inv(s.(items := items'))
  {
    assert QueueOk(items', s.queue);
    forall w | 0 <= w < |s.workers| ensures HeldOk(items', s.queue, s.workers[w]) {
      assert HeldOk(s.items, s.queue, s.workers[w]);
    }
    assert HoldersOk(items', s.queue, s.workers);
    forall i | 0 <= i < |s.items| && Done(s.items[i]) ensures Done(items'[i]) {
      assert ItemOk(items'[i]) && ItemOk(s.items[i]);
    }
    assert PlacesOk(items', s.queue, s.workers);
  }

  /** The caller has begun to release the item; no other call mentions it. */
  lemma {:induction false} ReleaseBegins(s: State, c: nat, i: nat, items': seq<Item>)
    requires Inv(s) && c < |s.clients| && s.clients[c] == Idle && i < |s.items| && !s.items[i].autoRelease && !OtherRefers(s, c, i)
    requires items' == s.items[i := s.items[i].(released := true)]
    ensures Inv(s.(items := items'))
  {
    assert ItemOk(s.items[i]);
    forall d | 0 <= d < |s.clients|
      ensures ClientOk(items', s.pending, SomeWillNotify(s.workers), s.clients[d])
    {
      assert ClientOk(s.items, s.pending, SomeWillNotify(s.workers), s.clients[d]);
      assert !Refers(s.clients[d], i);
    }
    ItemMove(s, items');
  }

  /** Nobody is about to delete an item that is not released. */
  lemma {:induction false} NoTarget(s: State, i: nat)
    requires Inv(s) && i < |s.items| && !s.items[i].released
    ensures forall d :: 0 <= d < |s.clients| ==> Target(s.clients[d]) != Some(i)
  {
    forall d | 0 <= d < |s.clients| ensures Target(s.clients[d]) != Some(i) {
      assert ClientOk(s.items, s.pending, SomeWillNotify(s.workers), s.clients[d]);
    }
  }

  /** The fast path on `completed`, with the item in the state the call demands. */
  lemma {:induction false} FastPath(s: State, c: nat, i: nat, kind: WaitKind)
    requires Inv(s) && c < |s.clients| && s.clients[c] == Idle && (!s.shouldExit || s.queueFreed)
    requires i < |s.items| && !s.items[i].autoRelease && !s.items[i].freed && (kind.Release? <==> s.items[i].released)
    requires forall d :: 0 <= d < |s.clients| ==> Target(s.clients[d]) != Some(i)
    ensures Inv(SetClient(s, c, if s.items[i].completed then AfterWait(i, kind) else ItemLock(i, kind)))
  {
    var p := if s.items[i].completed then AfterWait(i, kind) else ItemLock(i, kind);
    if s.queueFreed {
      FreedMeansDone(s, i);
    }
    ClientMove(s, SetClient(s, c, p), c, p);
  }

  lemma {:induction false} WaitItemKeepsInv(s: State, c: nat, i: nat, kind: WaitKind)
    requires Inv(s) && Enabled(s, WaitItem(c, i, kind))
    ensures Inv(Apply(s, WaitItem(c, i, kind)))
  {
    assert ItemOk(s.items[i]);
    NoTarget(s, i);
    if kind.Release? {
      var items' := s.items[i := s.items[i].(released := true)];
      ReleaseBegins(s, c, i, items');
      FastPath(s.(items := items'), c, i, kind);
    } else {
      FastPath(s, c, i, kind);
    }
  }

  /** Under the mutex the item is marked as waited on. */
  lemma {:induction false} MarkWaited(s: State, c: nat, i: nat, items': seq<Item>)
    requires Inv(s) && c < |s.clients| && s.lock == None && i < |s.items| && items' == s.items[i := s.items[i].(waitedOn := true)]
    ensures Inv(s.(items := items'))
  {
    assert ItemOk(s.items[i]);
    forall d | 0 <= d < |s.clients|
      ensures ClientOk(items', s.pending, SomeWillNotify(s.workers), s.clients[d])
    {
      assert ClientOk(s.items, s.pending, SomeWillNotify(s.workers), s.clients[d]);
    }
    ItemMove(s, items');
  }

  lemma {:induction false} WaitItemLockKeepsInv(s: State, c: nat)
    requires Inv(s) && Enabled(s, WaitItemLock(c))
    ensures Inv(Apply(s, WaitItemLock(c)))
  {
    var ItemLock(i, kind) := s.clients[c];
    var s1 := s.(items := s.items[i := s.items[i].(waitedOn := true)]);
    MarkWaited(s, c, i, s1.items);
    NotClosing(s, c);
    assert ClientOk(s1.items, s1.pending, SomeWillNotify(s1.workers), s1.clients[c]);
    var p := if s.items[i].completed then AfterWait(i, kind) else ItemAsleep(i, kind);
    ClientMove(s1, SetClient(s1, c, p), c, p);
  }

  lemma {:induction false} WaitItemRetestKeepsInv(s: State, c: nat)
    requires Inv(s) && Enabled(s, WaitItemRetest(c))
    ensures Inv(Apply(s, WaitItemRetest(c)))
  {
    assert ClientOk(s.items, s.pending, SomeWillNotify(s.workers), s.clients[c]);
    NotClosing(s, c);
    var r := Apply(s, WaitItemRetest(c));
    ClientMove(s, r, c, r.clients[c]);
  }

  lemma {:induction false} SleeperStopsKeepsInv(s: State, c: nat, t: Step)
    requires t.WaitItemWake? || t.WaitItemTimeout? || t.WaitQueueWake? || t.WaitQueueTimeout?
    requires Inv(s) && Enabled(s, t) && c == t.c
    ensures Inv(Apply(s, t))
  {
    assert ClientOk(s.items, s.pending, SomeWillNotify(s.workers), s.clients[c]);
    NotClosing(s, c);
    var r := Apply(s, t);
    ClientMove(s, r, c, r.clients[c]);
  }

  /** Once its releaser is out of the call, the item may be deleted. */
  lemma {:induction false} ItemDeleted(s: State, i: nat, items': seq<Item>)
    requires Inv(s) && i < |s.items| && s.items[i].completed && s.items[i].released
    requires forall d :: 0 <= d < |s.clients| ==> Target(s.clients[d]) != Some(i)
    requires items' == s.items[i := s.items[i].(freed := true)]
    ensures Inv(s.(items := items'))
  {
    assert ItemOk(s.items[i]);
    forall d | 0 <= d < |s.clients|
      ensures ClientOk(items', s.pending, SomeWillNotify(s.workers), s.clients[d])
    {
      assert ClientOk(s.items, s.pending, SomeWillNotify(s.workers), s.clients[d]);
    }
    ItemMove(s, items');
  }

  lemma {:induction false} DeleteKeepsInv(s: State, c: nat)
    requires Inv(s) && Enabled(s, Delete(c))
    ensures Inv(Apply(s, Delete(c)))
  {
    var i := s.clients[c].item;
    assert ClientOk(s.items, s.pending, SomeWillNotify(s.workers), s.clients[c]);
    NotClosing(s, c);
    var s1 := SetClient(s, c, Idle);
    ClientMove(s, s1, c, Idle);
    forall d | 0 <= d < |s1.clients| ensures Target(s1.clients[d]) != Some(i) {
      assert d != c ==> Target(s.clients[d]) != Target(s.clients[c]);
    }
    ItemDeleted(s1, i, s.items[i := s.items[i].(freed := true)]);
  }

  lemma {:induction false} WaitQueueKeepsInv(s: State, c: nat, timed: bool)
    requires Inv(s) && Enabled(s, WaitQueue(c, timed))
    ensures Inv(Apply(s, WaitQueue(c, timed)))
  {
    if s.pending != 0 {
      ClientMove(s, Apply(s, WaitQueue(c, timed)), c, QueueAsleep(timed));
    }
  }

  lemma {:induction false} WaitQueueRetestKeepsInv(s: State, c: nat)
    requires Inv(s) && Enabled(s, WaitQueueRetest(c))
    ensures Inv(Apply(s, WaitQueueRetest(c)))
  {
    NotClosing(s, c);
    var r := Apply(s, WaitQueueRetest(c));
    ClientMove(s, r, c, r.clients[c]);
  }

  // ----- queueing work -----

  lemma {:induction false} PlacesPush(items: seq<Item>, queue: seq<nat>, ws: seq<Worker>, n: nat, auto: bool)
    requires PlacesOk(items, queue, ws)
    ensures PlacesOk(items + Fresh(n, auto), queue + Ids(|items|, n), ws)
  {
    var q := queue + Ids(|items|, n);
    forall i | 0 <= i < |items| + n
      ensures Done((items + Fresh(n, auto))[i]) || i in q || Held(ws, i)
    {
      if i >= |items| {
        assert q[|queue| + (i - |items|)] == i;
      } else {
        assert Done(items[i]) || i in queue || Held(ws, i);
      }
    }
  }

  lemma {:induction false} HoldersPush(items: seq<Item>, queue: seq<nat>, ws: seq<Worker>, n: nat, auto: bool)
    requires HoldersOk(items, queue, ws)
    ensures HoldersOk(items + Fresh(n, auto), queue + Ids(|items|, n), ws)
  {
    forall w | 0 <= w < |ws| ensures HeldOk(items + Fresh(n, auto), queue + Ids(|items|, n), ws[w]) {
      assert HeldOk(items, queue, ws[w]);
    }
  }

  lemma {:induction false} QueuePush(items: seq<Item>, queue: seq<nat>, n: nat, auto: bool)
    requires QueueOk(items, queue)
    ensures QueueOk(items + Fresh(n, auto), queue + Ids(|items|, n))
  {
  }

  lemma {:induction false} PushKeepsInv(s: State, c: nat, n: nat, auto: bool)
    requires Inv(s) && Enabled(s, Push(c, n, auto))
    ensures Inv(Apply(s, Push(c, n, auto)))
  {
    var r := Apply(s, Push(c, n, auto));
    QueuePush(s.items, s.queue, n, auto);
    PlacesPush(s.items, s.queue, s.workers, n, auto);
    HoldersPush(s.items, s.queue, s.workers, n, auto);
    CountWaitersUpdate(s.clients, c, r.clients[c]);
    assert WillSignal(r.clients[c]);
    forall d | 0 <= d < |r.clients|
      ensures ClientOk(r.items, r.pending, SomeWillNotify(r.workers), r.clients[d])
    {
      assert ClientOk(s.items, s.pending, SomeWillNotify(s.workers), s.clients[d]);
    }
  }

  /** With work queued no worker has exited, so a worker that is not asleep is busy. */
  lemma {:induction false} NoneAsleepMeansBusy(s: State)
    requires Inv(s) && !SomeAsleep(s)
    ensures s.queue == [] || SomeBusy(s.workers)
  {
    assert s.queue != [] ==> Busy(s.workers[0]);
  }

  lemma {:induction false} NotifyOneKeepsInv(s: State, c: nat, woken: Option<nat>)
    requires Inv(s) && Enabled(s, NotifyOne(c, woken))
    ensures Inv(Apply(s, NotifyOne(c, woken)))
  {
    NotClosing(s, c);
    var s1 := if woken.Some? then SetWorker(s, woken.value, Ready) else s;
    if woken.Some? {
      WorkerWakesKeepsInv(s, woken.value);
      assert Busy(s1.workers[woken.value]);
    } else {
      NoneAsleepMeansBusy(s);
    }
    ClientMove(s1, SetClient(s1, c, Idle), c, Idle);
  }

  lemma {:induction false} WakeWorkersKeepsInv(s: State)
    requires Inv(s)
    ensures Inv(s.(workers := WakeWorkers(s.workers)))
    ensures !SomeAsleep(s.(workers := WakeWorkers(s.workers)))
  {
    var ws := WakeWorkers(s.workers);
    CountWorkersWake(s.workers);
    HoldersWake(s.items, s.queue, s.workers);
    PlacesWake(s.items, s.queue, s.workers);
    if SomeWillNotify(s.workers) {
      var w :| 0 <= w < |s.workers| && WillNotify(s.workers[w]);
      assert WillNotify(ws[w]);
    }
    ClientsKeep(s.items, s.items, s.pending, SomeWillNotify(s.workers), SomeWillNotify(ws), s.clients);
    LockWake(s.lock, s.workers);
    WakeWake(s.queue, s.shouldExit, s.workers, s.clients);
    ClosingWake(s.shouldExit, s.queueFreed, s.workers, s.clients);
  }

  lemma {:induction false} LockWake(lock: Option<nat>, ws: seq<Worker>)
    requires LockOk(lock, ws)
    ensures LockOk(lock, WakeWorkers(ws))
  {
  }

  lemma {:induction false} WakeWake(queue: seq<nat>, shouldExit: bool, ws: seq<Worker>, cs: seq<Client>)
    requires WakeOk(queue, shouldExit, ws, cs)
    ensures WakeOk(queue, shouldExit, WakeWorkers(ws), cs)
  {
    if SomeBusy(ws) {
      var w :| 0 <= w < |ws| && Busy(ws[w]);
      assert Busy(WakeWorkers(ws)[w]);
    }
  }

  lemma {:induction false} ClosingWake(shouldExit: bool, queueFreed: bool, ws: seq<Worker>, cs: seq<Client>)
    requires ClosingOk(shouldExit, queueFreed, ws, cs)
    ensures ClosingOk(shouldExit, queueFreed, WakeWorkers(ws), cs)
  {
  }

  lemma {:induction false} NotifyAllKeepsInv(s: State, c: nat)
    requires Inv(s) && Enabled(s, NotifyAll(c))
    ensures Inv(Apply(s, NotifyAll(c)))
  {
    NotClosing(s, c);
    var s1 := s.(workers := WakeWorkers(s.workers));
    WakeWorkersKeepsInv(s);
    NoneAsleepMeansBusy(s1);
    ClientMove(s1, SetClient(s1, c, Idle), c, Idle);
  }

  // ----- freeing the queue -----

  lemma {:induction false} FreeStartKeepsInv(s: State, c: nat)
    requires Inv(s) && Enabled(s, FreeStart(c))
    ensures Inv(Apply(s, FreeStart(c)))
  {
    var r := Apply(s, FreeStart(c));
    CountWaitersUpdate(s.clients, c, FreeSignal);
    assert r.clients[c].FreeSignal? && WillSignal(r.clients[c]);
    assert Closing(r.clients[c]) && IdleBut(r.clients, c);
  }

  lemma {:induction false} FreeNotifyKeepsInv(s: State, c: nat)
    requires Inv(s) && Enabled(s, FreeNotify(c))
    ensures Inv(Apply(s, FreeNotify(c)))
  {
    var s1 := s.(workers := WakeWorkers(s.workers));
    WakeWorkersKeepsInv(s);
    NoneAsleepMeansBusy(s1);
    JoinKeepsInv(s1, c);
  }

  /** With no worker asleep, the caller may stop signalling and join them. */
  lemma {:induction false} JoinKeepsInv(s: State, c: nat)
    requires Inv(s) && c < |s.clients| && s.clients[c].FreeSignal? && !SomeAsleep(s) && (s.queue != [] ==> SomeBusy(s.workers))
    ensures Inv(SetClient(s, c, FreeJoin))
  {
    var r := SetClient(s, c, FreeJoin);
    CountWaitersUpdate(s.clients, c, FreeJoin);
    JoinCloses(s.shouldExit, s.queueFreed, s.workers, s.clients, c);
  }

  lemma {:induction false} JoinCloses(shouldExit: bool, queueFreed: bool, ws: seq<Worker>, cs: seq<Client>, c: nat)
    requires ClosingOk(shouldExit, queueFreed, ws, cs) && c < |cs| && cs[c].FreeSignal?
    ensures ClosingOk(shouldExit, queueFreed, ws, cs[c := FreeJoin])
  {
    var cs' := cs[c := FreeJoin];
    assert Closing(cs[c]) && IdleBut(cs, c);
    assert Closing(cs'[c]) && IdleBut(cs', c);
  }

  lemma {:induction false} FreeFinishKeepsInv(s: State, c: nat)
    requires Inv(s) && Enabled(s, FreeFinish(c))
    ensures Inv(Apply(s, FreeFinish(c)))
  {
    var r := Apply(s, FreeFinish(c));
    CountWaitersUpdate(s.clients, c, Idle);
    assert s.workers[0].Exited?;
    assert Closing(s.clients[c]);
    assert forall d :: 0 <= d < |s.clients| && d != c ==> s.clients[d].Idle?;
  }

  // ----- safety of every run -----

  lemma {:induction false} InitEstablishesInv(s: State)
    requires Init(s)
    ensures Inv(s)
  {
    NoneCounted(s.workers);
    NoneWaiting(s.clients);
  }

  lemma {:induction false} NoneCounted(ws: seq<Worker>)
    requires forall w :: 0 <= w < |ws| ==> ws[w] == Ready
    ensures CountWorkers(ws) == 0
  {
    if ws != [] {
      NoneCounted(ws[1..]);
    }
  }

  lemma {:induction false} NoneWaiting(cs: seq<Client>)
    requires forall c :: 0 <= c < |cs| ==> cs[c] == Idle
    ensures CountWaiters(cs) == 0
  {
    if cs != [] {
      NoneWaiting(cs[1..]);
    }
  }

  lemma {:induction false} WorkerStepKeepsInv(s: State, t: Step)
    requires Inv(s) && Enabled(s, t) && IsWorkerStep(t)
    ensures Inv(Apply(s, t))
  {
    match t
    case WorkerTest(w) => if s.queue == [] { TestSleepsOrExits(s, w); } else { TestPops(s, w); }
    case WorkerSpurious(w) => WorkerWakesKeepsInv(s, w);
    case WorkerCall(w) => WorkerCallKeepsInv(s, w);
    case WorkerDrop(w) => WorkerDropKeepsInv(s, w);
    case WorkerLock(w) => WorkerLockKeepsInv(s, w);
    case WorkerPublish(w) => WorkerPublishKeepsInv(s, w);
    case WorkerUnlock(w) => WorkerUnlockKeepsInv(s, w);
    case WorkerNotify(w) => WorkerNotifyKeepsInv(s, w);
  }

  ghost predicate IsWorkerStep(t: Step)
  {
    || t.WorkerTest? || t.WorkerSpurious? || t.WorkerCall? || t.WorkerDrop?
    || t.WorkerLock? || t.WorkerPublish? || t.WorkerUnlock? || t.WorkerNotify?
  }

  lemma {:induction false} ClientStepKeepsInv(s: State, t: Step)
    requires Inv(s) && Enabled(s, t) && !IsWorkerStep(t)
    ensures Inv(Apply(s, t))
  {
    match t
    case Push(c, n, auto) => PushKeepsInv(s, c, n, auto);
    case NotifyOne(c, woken) => NotifyOneKeepsInv(s, c, woken);
    case NotifyAll(c) => NotifyAllKeepsInv(s, c);
    case WaitItem(c, i, kind) => WaitItemKeepsInv(s, c, i, kind);
    case WaitItemLock(c) => WaitItemLockKeepsInv(s, c);
    case WaitItemRetest(c) => WaitItemRetestKeepsInv(s, c);
    case WaitItemWake(c) => SleeperStopsKeepsInv(s, c, t);
    case WaitItemTimeout(c) => SleeperStopsKeepsInv(s, c, t);
    case Delete(c) => DeleteKeepsInv(s, c);
    case WaitQueue(c, timed) => WaitQueueKeepsInv(s, c, timed);
    case WaitQueueRetest(c) => WaitQueueRetestKeepsInv(s, c);
    case WaitQueueWake(c) => SleeperStopsKeepsInv(s, c, t);
    case WaitQueueTimeout(c) => SleeperStopsKeepsInv(s, c, t);
    case FreeStart(c) => FreeStartKeepsInv(s, c);
    case FreeNotify(c) => FreeNotifyKeepsInv(s, c);
    case FreeFinish(c) => FreeFinishKeepsInv(s, c);
  }

  lemma {:induction false} RunKeepsInv(s: State, steps: seq<Step>)
    requires Inv(s) && CanRun(s, steps)
    ensures Inv(RunFrom(s, steps))
    decreases |steps|
  {
    if steps != [] {
      if IsWorkerStep(steps[0]) { WorkerStepKeepsInv(s, steps[0]); } else { ClientStepKeepsInv(s, steps[0]); }
      RunKeepsInv(Apply(s, steps[0]), steps[1..]);
    }
  }

  ghost predicate Reachable(s: State)
  {
    exists s0, steps :: Init(s0) && CanRun(s0, steps) && RunFrom(s0, steps) == s
  }

  lemma {:induction false} ReachableHasInv(s: State)
    requires Reachable(s)
    ensures Inv(s)
  {
    var s0, steps :| Init(s0) && CanRun(s0, steps) && RunFrom(s0, steps) == s;
    InitEstablishesInv(s0);
    RunKeepsInv(s0, steps);
  }

  // ----- what the invariant means -----

  /** No lost wake-up: a sleeper whose condition holds has a notifier on its way, queued
      work has an awake worker or an outstanding notify, and a worker asleep during
      shutdown has the shutdown notify outstanding. */
  lemma {:induction false} NoLostWakeUp(s: State)
    requires Reachable(s)
    ensures forall c :: 0 <= c < |s.clients| && s.clients[c].ItemAsleep? ==>
              s.clients[c].item < |s.items| && (s.items[s.clients[c].item].completed ==> SomeWillNotify(s.workers))
    ensures forall c :: 0 <= c < |s.clients| && s.clients[c].QueueAsleep? && s.pending == 0 ==>
              SomeWillNotify(s.workers)
    ensures s.queue != [] ==> SomeBusy(s.workers) || SomeWillSignal(s.clients)
    ensures s.shouldExit && SomeAsleep(s) ==> SomeFreeSignal(s.clients)
  {
    ReachableHasInv(s);
    forall c | 0 <= c < |s.clients|
      ensures ClientOk(s.items, s.pending, SomeWillNotify(s.workers), s.clients[c])
    {
    }
  }

  /** pending_items is exactly the queued items plus those a worker has taken and not
      yet accounted for; no callback ever runs twice; a zero count means every callback
      has run. */
  lemma {:induction false} PendingIsExact(s: State)
    requires Reachable(s)
    ensures s.pending == |s.queue| + CountWorkers(s.workers)
    ensures forall i :: 0 <= i < |s.items| ==> s.items[i].runs <= 1
    ensures s.pending == 0 ==> forall i :: 0 <= i < |s.items| ==> s.items[i].runs == 1
  {
    ReachableHasInv(s);
    forall i | 0 <= i < |s.items| ensures s.items[i].runs <= 1 && (s.pending == 0 ==> s.items[i].runs == 1) {
      assert ItemOk(s.items[i]);
      if s.pending == 0 && !Done(s.items[i]) {
        var w :| 0 <= w < |s.workers| && HeldItem(s.workers[w]) == Some(i);
        assert HeldOk(s.items, s.queue, s.workers[w]);
        if Counted(s.workers[w]) {
          CountedIsPositive(s.workers, w);
        }
      }
    }
  }

  lemma {:induction false} CountedIsPositive(ws: seq<Worker>, w: nat)
    requires w < |ws| && Counted(ws[w])
    ensures CountWorkers(ws) > 0
  {
    if w > 0 {
      CountedIsPositive(ws[1..], w - 1);
    }
  }

  /** When `osd_work_queue_free` has returned, every item ever queued has run exactly
      once and is published or deleted. */
  lemma {:induction false} FreeRunsEverythingOnce(s: State)
    requires Reachable(s) && s.queueFreed
    ensures s.queue == [] && s.pending == 0
    ensures forall i :: 0 <= i < |s.items| ==> s.items[i].runs == 1
    ensures forall i :: 0 <= i < |s.items| ==> if s.items[i].autoRelease then s.items[i].freed else s.items[i].completed
  {
    ReachableHasInv(s);
    assert s.workers[0].Exited?;
    forall i | 0 <= i < |s.items| ensures Done(s.items[i]) { FreedMeansDone(s, i); }
    if CountWorkers(s.workers) > 0 {
      CountedWorker(s.workers);
    }
  }

  /** The items whose memory a step reads or writes. */
  ghost function ItemsTouched(s: State, t: Step): set<nat>
    requires Enabled(s, t)
  {
    match t
    case WorkerTest(_) => if s.queue != [] then {s.queue[0]} else {}
    case WorkerCall(w) => {s.workers[w].item}
    case WorkerDrop(w) => {s.workers[w].item}
    case WorkerLock(w) => if s.workers[w].handle.Some? then {s.workers[w].handle.value} else {}
    case WorkerPublish(w) => if s.workers[w].handle.Some? then {s.workers[w].handle.value} else {}
    case WaitItem(_, i, _) => {i}
    case WaitItemLock(c) => {s.clients[c].item}
    case WaitItemRetest(c) => {s.clients[c].item}
    case WaitItemTimeout(c) => {s.clients[c].item}
    case Delete(c) => {s.clients[c].item}
    case _ => {}
  }

  /** Every step but the unlocked fast path and the final delete uses the queue object. */
  ghost predicate QueueTouched(t: Step) { !t.WaitItem? && !t.Delete? }

  /** No step ever touches a deleted item or the deleted queue; in particular a worker
      holds no item that is `completed`, so a caller may delete it at once. */
  lemma {:induction false} NoUseAfterFree(s: State, t: Step)
    requires Reachable(s) && Enabled(s, t)
    ensures forall i :: i in ItemsTouched(s, t) ==> i < |s.items| && !s.items[i].freed
    ensures s.queueFreed ==> !QueueTouched(t)
    ensures forall w, i :: 0 <= w < |s.workers| && 0 <= i < |s.items| && s.items[i].completed ==>
              HeldItem(s.workers[w]) != Some(i)
  {
    ReachableHasInv(s);
    forall w | 0 <= w < |s.workers| ensures HeldOk(s.items, s.queue, s.workers[w]) {
    }
    TouchedIsLive(s, t);
  }

  lemma {:induction false} TouchedIsLive(s: State, t: Step)
    requires Inv(s) && Enabled(s, t)
    ensures forall i :: i in ItemsTouched(s, t) ==> i < |s.items| && !s.items[i].freed
    ensures s.queueFreed ==> !QueueTouched(t)
  {
    if IsWorkerStep(t) {
      assert HeldOk(s.items, s.queue, s.workers[t.w]);
      if t.WorkerTest? && s.queue != [] {
        assert ItemOk(s.items[s.queue[0]]);
      }
    } else {
      assert ClientOk(s.items, s.pending, SomeWillNotify(s.workers), s.clients[t.c]);
      if t.WaitItem? {
        assert ItemOk(s.items[t.i]);
      }
    }
  }

  // ----- every call returns -----

  /** Steps that carry on calls already begun; new calls, timeouts and spurious wake-ups
      are not among them. */
  ghost predicate Progress(t: Step)
  {
    && !t.WorkerSpurious? && !t.WaitItemWake? && !t.WaitQueueWake? && !t.WaitItemTimeout? && !t.WaitQueueTimeout?
    && !t.Push? && !t.WaitItem? && !t.WaitQueue? && !t.FreeStart?
  }

  lemma {:induction false} SignalStep(s: State, c: nat) returns (t: Step)
    requires c < |s.clients| && WillSignal(s.clients[c])
    ensures Progress(t) && Enabled(s, t)
  {
    if s.clients[c].FreeSignal? {
      t := FreeNotify(c);
    } else if s.clients[c].all {
      t := NotifyAll(c);
    } else if SomeAsleep(s) {
      var w :| 0 <= w < |s.workers| && s.workers[w] == Asleep;
      t := NotifyOne(c, Some(w));
    } else {
      t := NotifyOne(c, None);
    }
  }

  lemma {:induction false} BusyStep(s: State, w: nat) returns (t: Step)
    requires Inv(s) && w < |s.workers| && Busy(s.workers[w])
    ensures Progress(t) && Enabled(s, t)
  {
    var v := if s.lock.Some? then s.lock.value else w;
    assert HeldOk(s.items, s.queue, s.workers[v]);
    match s.workers[v] {
      case Ready => t := WorkerTest(v);
      case Popped(_) => t := WorkerCall(v);
      case Called(_) => t := WorkerDrop(v);
      case Finished(_) => t := WorkerLock(v);
      case Publishing(_, _) => t := WorkerPublish(v);
      case Published(_) => t := WorkerUnlock(v);
      case Notifying => t := WorkerNotify(v);
    }
  }

  /** With no busy worker there is nobody to notify, nobody to hold an item or the mutex. */
  lemma {:induction false} Quiet(s: State)
    requires Inv(s) && !SomeBusy(s.workers)
    ensures s.lock == None && !SomeWillNotify(s.workers) && s.pending == |s.queue|
    ensures forall i :: 0 <= i < |s.items| ==> !Held(s.workers, i)
  {
    forall w | 0 <= w < |s.workers| ensures !Busy(s.workers[w]) {
    }
    if CountWorkers(s.workers) > 0 {
      CountedWorker(s.workers);
    }
  }

  /** Deadlock freedom: while any call is in progress some thread can carry on. */
  lemma {:induction false} SomeThreadCanMove(s: State, c: nat) returns (t: Step)
    requires Reachable(s) && c < |s.clients| && !s.clients[c].Idle?
    ensures Progress(t) && Enabled(s, t)
  {
    ReachableHasInv(s);
    if SomeBusy(s.workers) {
      var w :| 0 <= w < |s.workers| && Busy(s.workers[w]);
      t := BusyStep(s, w);
      return;
    }
    Quiet(s);
    if SomeWillSignal(s.clients) {
      var d :| 0 <= d < |s.clients| && WillSignal(s.clients[d]);
      t := SignalStep(s, d);
      return;
    }
    assert ClientOk(s.items, s.pending, SomeWillNotify(s.workers), s.clients[c]);
    t := QuietStep(s, c);
  }

  /** With no notify to come, an item that is waited for is queued or held. */
  lemma {:induction false} AsleepIsPending(s: State, c: nat)
    requires Inv(s) && c < |s.clients| && s.clients[c].ItemAsleep? && !SomeWillNotify(s.workers)
    ensures s.clients[c].item < |s.items| && (s.clients[c].item in s.queue || Held(s.workers, s.clients[c].item))
  {
    assert ClientOk(s.items, s.pending, SomeWillNotify(s.workers), s.clients[c]);
    assert Done(s.items[s.clients[c].item]) || s.clients[c].item in s.queue || Held(s.workers, s.clients[c].item);
  }

  lemma {:induction false} QuietStep(s: State, c: nat) returns (t: Step)
    requires Inv(s) && c < |s.clients| && !s.clients[c].Idle? && !SomeBusy(s.workers) && !SomeWillSignal(s.clients)
    ensures Progress(t) && Enabled(s, t)
  {
    Quiet(s);
    assert s.queue == [] && !WillSignal(s.clients[c]);
    assert ClientOk(s.items, s.pending, SomeWillNotify(s.workers), s.clients[c]);
    if s.clients[c].ItemAsleep? {
      AsleepIsPending(s, c);
    }
    match s.clients[c] {
      case ItemLock(_, _) => t := WaitItemLock(c);
      case ItemAwake(_, _) => t := WaitItemRetest(c);
      case Releasing(_) => t := Delete(c);
      case QueueAwake(_) => t := WaitQueueRetest(c);
      case FreeJoin =>
        assert s.shouldExit;
        NoFreeSignal(s.clients);
        forall w | 0 <= w < |s.workers| ensures s.workers[w] == Exited {
          assert !Busy(s.workers[w]);
        }
        t := FreeFinish(c);
    }
  }

  lemma {:induction false} NoFreeSignal(cs: seq<Client>)
    requires !SomeWillSignal(cs)
    ensures !SomeFreeSignal(cs)
  {
    forall c | 0 <= c < |cs| ensures !cs[c].FreeSignal? {
      assert !WillSignal(cs[c]);
    }
  }

  ghost function WorkerRank(p: Worker, n: nat): nat
  {
    match p
    case Asleep => 0
    case Exited => 0
    case Ready => 1
    case Notifying => n + 2
    case Published(_) => n + 3
    case Publishing(_, _) => n + 4
    case Finished(_) => n + 5
    case Called(_) => n + 6
    case Popped(_) => n + 7
  }

  ghost function ClientRank(p: Client, m: nat): nat
  {
    match p
    case Idle => 0
    case ItemAsleep(_, _) => 1
    case QueueAsleep(_) => 1
    case Releasing(_) => 1
    case FreeJoin => 1
    case ItemAwake(_, _) => 2
    case QueueAwake(_) => 2
    case ItemLock(_, _) => 3
    case Pushed(_) => m + 1
    case FreeSignal => m + 2
  }

  ghost function WorkersRank(ws: seq<Worker>, n: nat): nat
  {
    if ws == [] then 0 else WorkerRank(ws[0], n) + WorkersRank(ws[1..], n)
  }

  ghost function ClientsRank(cs: seq<Client>, m: nat): nat
  {
    if cs == [] then 0 else ClientRank(cs[0], m) + ClientsRank(cs[1..], m)
  }

  /** An upper bound on the progress steps left: a notify may wake every client, a
      signal every worker. */
  ghost function Work(s: State): nat
  {
    |s.queue| * (|s.clients| + 8) + WorkersRank(s.workers, |s.clients|) + ClientsRank(s.clients, |s.workers|)
  }

  lemma {:induction false} WorkersRankUpdate(ws: seq<Worker>, n: nat, w: nat, p: Worker)
    requires w < |ws|
    ensures WorkersRank(ws[w := p], n) == WorkersRank(ws, n) - WorkerRank(ws[w], n) + WorkerRank(p, n)
  {
    if w == 0 {
      assert ws[w := p][1..] == ws[1..];
    } else {
      assert ws[w := p][1..] == ws[1..][w - 1 := p];
      WorkersRankUpdate(ws[1..], n, w - 1, p);
    }
  }

  lemma {:induction false} ClientsRankUpdate(cs: seq<Client>, m: nat, c: nat, p: Client)
    requires c < |cs|
    ensures ClientsRank(cs[c := p], m) == ClientsRank(cs, m) - ClientRank(cs[c], m) + ClientRank(p, m)
  {
    if c == 0 {
      assert cs[c := p][1..] == cs[1..];
    } else {
      assert cs[c := p][1..] == cs[1..][c - 1 := p];
      ClientsRankUpdate(cs[1..], m, c - 1, p);
    }
  }

  lemma {:induction false} WakeWorkersRank(ws: seq<Worker>, n: nat)
    ensures WorkersRank(WakeWorkers(ws), n) <= WorkersRank(ws, n) + |ws|
  {
    if ws != [] {
      assert WakeWorkers(ws)[1..] == WakeWorkers(ws[1..]);
      WakeWorkersRank(ws[1..], n);
    }
  }

  lemma {:induction false} WakeClientsRank(cs: seq<Client>, m: nat)
    ensures ClientsRank(WakeClients(cs), m) <= ClientsRank(cs, m) + |cs|
  {
    if cs != [] {
      assert WakeClients(cs)[1..] == WakeClients(cs[1..]);
      WakeClientsRank(cs[1..], m);
    }
  }

  lemma {:induction false} WorkerStepRank(s: State, t: Step)
    requires Enabled(s, t) && Progress(t) && IsWorkerStep(t)
    ensures var r := Apply(s, t);
            && r.workers == s.workers[t.w := r.workers[t.w]]
            && r.clients == (if t.WorkerNotify? then WakeClients(s.clients) else s.clients)
            && r.queue == (if t.WorkerTest? && s.queue != [] then s.queue[1..] else s.queue)
            && forall n: nat :: WorkerRank(r.workers[t.w], n) + (if t.WorkerNotify? then n else 0)
                 < WorkerRank(s.workers[t.w], n) + (if t.WorkerTest? && s.queue != [] then n + 8 else 0)
  {
  }

  lemma {:induction false} QueueWork(q: nat, k: nat)
    ensures (q + 1) * k == q * k + k
  {
  }

  lemma {:induction false} WorkerProgressDecreases(s: State, t: Step)
    requires Enabled(s, t) && Progress(t) && IsWorkerStep(t)
    ensures Work(Apply(s, t)) < Work(s)
  {
    var r := Apply(s, t);
    var n := |s.clients|;
    WorkerStepRank(s, t);
    WorkersRankUpdate(s.workers, n, t.w, r.workers[t.w]);
    WakeClientsRank(s.clients, |s.workers|);
    var a, b := WorkerRank(r.workers[t.w], n), WorkerRank(s.workers[t.w], n);
    assert a + (if t.WorkerNotify? then n else 0) < b + (if t.WorkerTest? && s.queue != [] then n + 8 else 0);
    if t.WorkerTest? && s.queue != [] {
      QueueWork(|r.queue|, n + 8);
    }
  }

  lemma {:induction false} ClientStepRank(s: State, t: Step)
    requires Enabled(s, t) && Progress(t) && !IsWorkerStep(t)
    ensures var r := Apply(s, t);
            && r.clients == s.clients[t.c := r.clients[t.c]] && r.queue == s.queue
            && r.workers == (if t.NotifyAll? || t.FreeNotify? then WakeWorkers(s.workers)
                             else if t.NotifyOne? && t.woken.Some? then s.workers[t.woken.value := Ready]
                             else s.workers)
            && (forall m: nat :: ClientRank(r.clients[t.c], m) + (if WillSignal(s.clients[t.c]) then m else 0)
                 < ClientRank(s.clients[t.c], m))
            && (t.NotifyAll? || t.FreeNotify? || t.NotifyOne? ==> WillSignal(s.clients[t.c]))
  {
  }

  lemma {:induction false} ClientProgressDecreases(s: State, t: Step)
    requires Enabled(s, t) && Progress(t) && !IsWorkerStep(t)
    ensures Work(Apply(s, t)) < Work(s)
  {
    var r := Apply(s, t);
    var n, m := |s.clients|, |s.workers|;
    ClientStepRank(s, t);
    ClientsRankUpdate(s.clients, m, t.c, r.clients[t.c]);
    assert ClientRank(r.clients[t.c], m) + (if WillSignal(s.clients[t.c]) then m else 0) < ClientRank(s.clients[t.c], m);
    if t.NotifyOne? && t.woken.Some? {
      WorkersRankUpdate(s.workers, n, t.woken.value, Ready);
    }
    WakeWorkersRank(s.workers, n);
  }

  /** What a step that is no progress may add to the work, with n clients and m workers: a new
      call its own steps, a spurious wake-up a second test, a timeout nothing. */
  ghost function Adds(t: Step, n: nat, m: nat): nat
  {
    match t
    case WorkerSpurious(_) => 1
    case WaitItemWake(_) => 1
    case WaitQueueWake(_) => 1
    case Push(_, k, _) => k * (n + 8) + m + 1
    case WaitItem(_, _, _) => 3
    case WaitQueue(_, _) => 1
    case FreeStart(_) => m + 2
    case _ => 0
  }

  ghost function AddsAll(steps: seq<Step>, n: nat, m: nat): nat
  {
    if steps == [] then 0 else Adds(steps[0], n, m) + AddsAll(steps[1..], n, m)
  }

  ghost function ProgressSteps(steps: seq<Step>): nat
  {
    if steps == [] then 0 else (if Progress(steps[0]) then 1 else 0) + ProgressSteps(steps[1..])
  }

  lemma {:induction false} SpuriousAdds(s: State, t: Step)
    requires Enabled(s, t) && t.WorkerSpurious?
    ensures Work(Apply(s, t)) <= Work(s) + 1
  {
    WorkersRankUpdate(s.workers, |s.clients|, t.w, Ready);
  }

  /** A client's step that is no progress: its own place and the queue change, nothing else. */
  lemma {:induction false} CallStepRank(s: State, t: Step)
    requires Enabled(s, t) && !Progress(t) && !IsWorkerStep(t)
    ensures var r := Apply(s, t);
            && r.clients == s.clients[t.c := r.clients[t.c]] && r.workers == s.workers
            && |r.queue| == |s.queue| + (if t.Push? then t.n else 0)
            && forall n: nat, m: nat :: ClientRank(r.clients[t.c], m) + (if t.Push? then t.n * (n + 8) else 0)
                 <= ClientRank(s.clients[t.c], m) + Adds(t, n, m)
  {
  }

  lemma {:induction false} QueueGrows(q: nat, k: nat, w: nat)
    ensures (q + k) * w == q * w + k * w
  {
  }

  lemma {:induction false} CallAdds(s: State, t: Step)
    requires Enabled(s, t) && !Progress(t) && !IsWorkerStep(t)
    ensures Work(Apply(s, t)) <= Work(s) + Adds(t, |s.clients|, |s.workers|)
  {
    var r := Apply(s, t);
    var n, m := |s.clients|, |s.workers|;
    CallStepRank(s, t);
    ClientsRankUpdate(s.clients, m, t.c, r.clients[t.c]);
    assert ClientRank(r.clients[t.c], m) + (if t.Push? then t.n * (n + 8) else 0) <= ClientRank(s.clients[t.c], m) + Adds(t, n, m);
    QueueGrows(|s.queue|, if t.Push? then t.n else 0, n + 8);
  }

  /** One step more: progress uses work up, the others add no more than they may. */
  lemma {:induction false} StepWork(s: State, t: Step)
    requires Enabled(s, t)
    ensures (if Progress(t) then 1 else 0) + Work(Apply(s, t)) <= Work(s) + Adds(t, |s.clients|, |s.workers|)
  {
    if Progress(t) {
      if IsWorkerStep(t) { WorkerProgressDecreases(s, t); } else { ClientProgressDecreases(s, t); }
    } else if IsWorkerStep(t) {
      SpuriousAdds(s, t);
    } else {
      CallAdds(s, t);
    }
  }

  lemma {:induction false} OnlyProgress(steps: seq<Step>, n: nat, m: nat)
    requires forall k :: 0 <= k < |steps| ==> Progress(steps[k])
    ensures ProgressSteps(steps) == |steps| && AddsAll(steps, n, m) == 0
  {
    if steps != [] {
      OnlyProgress(steps[1..], n, m);
    }
  }

  ghost predicate Quiescent(s: State) { forall t :: Progress(t) ==> !Enabled(s, t) }

  ghost predicate AllIdle(s: State) { forall c :: 0 <= c < |s.clients| ==> s.clients[c] == Idle }

  lemma {:induction false} QuiescentIsIdle(s: State)
    requires Reachable(s) && Quiescent(s)
    ensures AllIdle(s)
  {
    forall c | 0 <= c < |s.clients| ensures s.clients[c] == Idle {
      if !s.clients[c].Idle? {
        var t := SomeThreadCanMove(s, c);
      }
    }
  }

  /** In every run, with any mixture of new calls, timeouts and spurious wake-ups, the steps that
      carry calls on are at most the work there was and what those others have added. */
  lemma {:induction false} RunWork(s: State, steps: seq<Step>, n: nat, m: nat)
    requires Reachable(s) && CanRun(s, steps) && n == |s.clients| && m == |s.workers|
    ensures ProgressSteps(steps) + Work(RunFrom(s, steps)) <= Work(s) + AddsAll(steps, n, m)
    ensures Reachable(RunFrom(s, steps))
    decreases |steps|
  {
    if steps != [] {
      StepWork(s, steps[0]);
      StepStaysReachable(s, steps[0]);
      RunWork(Apply(s, steps[0]), steps[1..], n, m);
    }
  }

  /** Liveness: the calls in progress take no more steps than the bound allows, at most Work(s) once
      nothing else happens, and when none is left every call has returned. */
  lemma {:induction false} EveryCallReturns(s: State, steps: seq<Step>)
    requires Reachable(s) && CanRun(s, steps)
    ensures ProgressSteps(steps) <= Work(s) + AddsAll(steps, |s.clients|, |s.workers|)
    ensures (forall k :: 0 <= k < |steps| ==> Progress(steps[k])) ==> |steps| <= Work(s)
    ensures Quiescent(RunFrom(s, steps)) ==> AllIdle(RunFrom(s, steps))
  {
    RunWork(s, steps, |s.clients|, |s.workers|);
    if forall k :: 0 <= k < |steps| ==> Progress(steps[k]) {
      OnlyProgress(steps, |s.clients|, |s.workers|);
    }
    if Quiescent(RunFrom(s, steps)) {
      QuiescentIsIdle(RunFrom(s, steps));
    }
  }

  lemma {:induction false} RunAppend(s: State, steps: seq<Step>, t: Step)
    requires CanRun(s, steps) && Enabled(RunFrom(s, steps), t)
    ensures CanRun(s, steps + [t]) && RunFrom(s, steps + [t]) == Apply(RunFrom(s, steps), t)
    decreases |steps|
  {
    var all := steps + [t];
    if steps == [] {
      assert all[1..] == [];
    } else {
      assert all[1..] == steps[1..] + [t];
      RunAppend(Apply(s, steps[0]), steps[1..], t);
    }
  }

  lemma {:induction false} StepStaysReachable(s: State, t: Step)
    requires Reachable(s) && Enabled(s, t)
    ensures Reachable(Apply(s, t)) && |Apply(s, t).clients| == |s.clients| && |Apply(s, t).workers| == |s.workers|
  {
    NextReachable(s, t, Apply(s, t));
    if IsWorkerStep(t) {
      WorkerStepClients(s, t);
    } else {
      ClientStepClients(s, t);
    }
  }

  lemma {:induction false} NextReachable(s: State, t: Step, r: State)
    requires Reachable(s) && Enabled(s, t) && r == Apply(s, t)
    ensures Reachable(r)
  {
    var s0, steps :| Init(s0) && CanRun(s0, steps) && RunFrom(s0, steps) == s;
    RunAppend(s0, steps, t);
  }

  lemma {:induction false} WorkerStepClients(s: State, t: Step)
    requires Enabled(s, t) && IsWorkerStep(t)
    ensures |Apply(s, t).clients| == |s.clients| && |Apply(s, t).workers| == |s.workers|
  {
  }

  lemma {:induction false} ClientStepClients(s: State, t: Step)
    requires Enabled(s, t) && !IsWorkerStep(t)
    ensures |Apply(s, t).clients| == |s.clients| && |Apply(s, t).workers| == |s.workers|
  {
  }

  /** The thread id a callback is given is the index of its worker: in every run of a queue
      that `osd_work_queue_alloc` made it lies below the number of threads, and so in 0..15. */
  lemma {:induction false} CallbackThreadId(s: State, steps: seq<Step>, k: nat, multi: bool, forced: Option<int>, cores: nat, maxThreads: Option<int>)
    requires Reachable(s) && |s.workers| == NumThreads(multi, forced, cores, maxThreads) && CanRun(s, steps)
    requires k < |steps| && steps[k].WorkerCall?
    ensures steps[k].w < NumThreads(multi, forced, cores, maxThreads) <= WORK_MAX_THREADS
    decreases |steps|
  {
    if k > 0 {
      StepStaysReachable(s, steps[0]);
      CallbackThreadId(Apply(s, steps[0]), steps[1..], k - 1, multi, forced, cores, maxThreads);
    }
  }
}
