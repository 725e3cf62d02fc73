/** main.py: deliveries that are dealt with at the same time. Each background task reads the keys of the
    store once and then works through its requests; the steps of several tasks interleave. */
module WebhookRaces {
  import opened Lists
  import opened Text
  import opened Webhook

  /** The keys of a delivery's requests, and what comes of each. */
  datatype Task = Task(keys: seq<string>, attempts: nat -> Attempt)

  /** Before the keys are read; with the keys that were read, at some request; at its end. */
  datatype Progress = Waiting | Working(existing: set<string>, next: nat) | Over

  /** The store, and how far each task is. */
  datatype Race = Race(store: seq<string>, progress: seq<Progress>)

  /** The next step of a task that has read the keys: the store after it, and the progress. */
  function Worked(task: Task, existing: set<string>, i: nat, store: seq<string>): (seq<string>, Progress) {
    if i >= |task.keys| then (store, Over)
    else if task.keys[i] in existing then (store, Working(existing, i + 1))
    else if task.attempts(i).pendingRaises then (store, Over)
    else (if task.attempts(i).stored then store + [task.keys[i]] else store, Working(existing, i + 1))
  }

  function Stepped(tasks: seq<Task>, r: Race, k: nat): Race {
    if k >= |tasks| || k >= |r.progress| then r
    else match r.progress[k]
      case Over => r
      case Waiting => r.(progress := r.progress[k := Working(KeysOf(r.store), 0)])
      case Working(existing, i) =>
        var (store, next) := Worked(tasks[k], existing, i, r.store);
        Race(store, r.progress[k := next])
  }

  /** Background tasks take steps in the order of the schedule. */
  function Raced(tasks: seq<Task>, r: Race, schedule: seq<nat>): Race
    decreases schedule
  {
    if schedule == [] then r else Raced(tasks, Stepped(tasks, r, schedule[0]), schedule[1..])
  }

  function Started(tasks: seq<Task>, store: seq<string>): Race {
    Race(store, seq(|tasks|, i => Waiting))
  }

  lemma {:induction false} RacedParts(tasks: seq<Task>, r: Race, first: seq<nat>, rest: seq<nat>)
    ensures Raced(tasks, r, first + rest) == Raced(tasks, Raced(tasks, r, first), rest)
    decreases first
  {
    if first == [] {
      assert first + rest == rest;
    } else {
      assert (first + rest)[0] == first[0] && (first + rest)[1..] == first[1..] + rest;
      RacedParts(tasks, Stepped(tasks, r, first[0]), first[1..], rest);
    }
  }

  // ---------------------------------------------------------------- a task that is let run

  function Times(k: nat, n: nat): seq<nat> {
    seq(n, i => k)
  }

  lemma OneStep(tasks: seq<Task>, r: Race, k: nat, n: nat)
    requires n > 0
    ensures Raced(tasks, r, Times(k, n)) == Raced(tasks, Stepped(tasks, r, k), Times(k, n - 1))
  {
    assert Times(k, n)[0] == k && Times(k, n)[1..] == Times(k, n - 1);
  }

  lemma {:induction false} OverStays(tasks: seq<Task>, r: Race, k: nat, n: nat)
    requires k < |tasks| == |r.progress| && r.progress[k] == Over
    ensures Raced(tasks, r, Times(k, n)) == r
  {
    if n > 0 {
      OneStep(tasks, r, k, n);
      OverStays(tasks, r, k, n - 1);
    }
  }

  /** Left alone with the keys it has read, a task stores what the sequential handler stores. */
  lemma {:induction false} WorksOn(tasks: seq<Task>, r: Race, k: nat, existing: set<string>, i: nat, n: nat)
    requires k < |tasks| == |r.progress| && r.progress[k] == Working(existing, i)
    requires i <= |tasks[k].keys| < i + n
    ensures Raced(tasks, r, Times(k, n))
         == Race(r.store + Stored(tasks[k].keys, existing, tasks[k].attempts, i), r.progress[k := Over])
    decreases n
  {
    var task, next := tasks[k], Stepped(tasks, r, k);
    OneStep(tasks, r, k, n);
    if i == |task.keys| || (task.keys[i] !in existing && task.attempts(i).pendingRaises) {
      OverStays(tasks, next, k, n - 1);
      assert r.store + [] == r.store;
    } else {
      WorksOn(tasks, next, k, existing, i + 1, n - 1);
      StoredStep(task.keys, existing, task.attempts, i, r.store);
      assert next.progress[k := Over] == r.progress[k := Over];
    }
  }

  /** A task on its own is the sequential handler. */
  lemma AloneIsSequential(tasks: seq<Task>, r: Race, k: nat)
    requires k < |tasks| == |r.progress| && r.progress[k] == Waiting
    ensures Raced(tasks, r, Times(k, |tasks[k].keys| + 2))
         == Race(r.store + Stored(tasks[k].keys, KeysOf(r.store), tasks[k].attempts, 0), r.progress[k := Over])
  {
    var next := Stepped(tasks, r, k);
    OneStep(tasks, r, k, |tasks[k].keys| + 2);
    WorksOn(tasks, next, k, KeysOf(r.store), 0, |tasks[k].keys| + 1);
    assert next.progress[k := Over] == r.progress[k := Over];
  }

  // ---------------------------------------------------------------- no key twice

  /** Request i of task k. */
  datatype Place = Place(task: nat, request: nat)

  predicate IsPlace(tasks: seq<Task>, p: Place) {
    p.task < |tasks| && p.request < |tasks[p.task].keys|
  }

  function KeyAt(tasks: seq<Task>, p: Place): string
    requires IsPlace(tasks, p)
  {
    tasks[p.task].keys[p.request]
  }

  /** No key that is not in the store is at two places, be it in one task or in two. */
  ghost predicate NewKeysDiffer(tasks: seq<Task>, existing: set<string>) {
    forall p, q :: IsPlace(tasks, p) && IsPlace(tasks, q) && p != q && KeyAt(tasks, p) == KeyAt(tasks, q) ==>
      KeyAt(tasks, p) in existing
  }

  /** This background task has dealt with the request. */
  predicate Passed(progress: Progress, request: nat) {
    progress.Over? || (progress.Working? && request < progress.next)
  }

  /** What the race has added to the store comes from different places, all dealt with, and every task
      has read at least the keys there were at first. */
  ghost predicate From(tasks: seq<Task>, store: seq<string>, r: Race, places: seq<Place>) {
    && |r.progress| == |tasks| && |r.store| == |store| + |places| && store <= r.store
    && (forall i :: 0 <= i < |places| ==>
          && IsPlace(tasks, places[i]) && Passed(r.progress[places[i].task], places[i].request)
          && r.store[|store| + i] == KeyAt(tasks, places[i]) && KeyAt(tasks, places[i]) !in KeysOf(store))
    && Distinct(places)
    && forall k :: 0 <= k < |tasks| && r.progress[k].Working? ==> KeysOf(store) <= r.progress[k].existing
  }

  lemma StepKeepsFrom(tasks: seq<Task>, store: seq<string>, r: Race, places: seq<Place>, k: nat)
    returns (later: seq<Place>)
    requires From(tasks, store, r, places)
    ensures From(tasks, store, Stepped(tasks, r, k), later)
  {
    later := places;
    if k < |tasks| && r.progress[k].Working? {
      var i := r.progress[k].next;
      var grown := Stepped(tasks, r, k).store;
      if grown != r.store {
        later := places + [Place(k, i)];
      }
    }
  }

  lemma {:induction false} RaceKeepsFrom(
      tasks: seq<Task>, store: seq<string>, r: Race, places: seq<Place>, schedule: seq<nat>)
    returns (later: seq<Place>)
    requires From(tasks, store, r, places)
    ensures From(tasks, store, Raced(tasks, r, schedule), later)
    decreases schedule
  {
    if schedule == [] {
      later := places;
    } else {
      var more := StepKeepsFrom(tasks, store, r, places, schedule[0]);
      later := RaceKeepsFrom(tasks, store, Stepped(tasks, r, schedule[0]), more, schedule[1..]);
    }
  }

  lemma FromIsDistinct(tasks: seq<Task>, store: seq<string>, r: Race, places: seq<Place>)
    requires Distinct(store) && NewKeysDiffer(tasks, KeysOf(store)) && From(tasks, store, r, places)
    ensures Distinct(r.store)
  {
    forall i, j | 0 <= i < j < |r.store|
      ensures r.store[i] != r.store[j]
    {
      assert i < |store| ==> r.store[i] == store[i] && store[i] in KeysOf(store);
      assert j < |store| ==> r.store[j] == store[j];
      if j >= |store| {
        var q := places[j - |store|];
        assert r.store[j] == KeyAt(tasks, q);
        if i >= |store| {
          var p := places[i - |store|];
          assert r.store[i] == KeyAt(tasks, p) && p != q;
        }
      }
    }
  }

  lemma RaceIsDistinct(tasks: seq<Task>, store: seq<string>, schedule: seq<nat>)
    requires Distinct(store) && NewKeysDiffer(tasks, KeysOf(store))
    ensures Distinct(Raced(tasks, Started(tasks, store), schedule).store)
  {
    var places := RaceKeepsFrom(tasks, store, Started(tasks, store), [], schedule);
    FromIsDistinct(tasks, store, Raced(tasks, Started(tasks, store), schedule), places);
  }

  // ---------------------------------------------------------------- a race that stores a key twice

  /** Both read, then one works, then the other. */
  function BothRead(tasks: seq<Task>, a: nat, b: nat): seq<nat>
    requires a < |tasks| && b < |tasks|
  {
    [a, b] + (Times(a, |tasks[a].keys| + 1) + Times(b, |tasks[b].keys| + 1))
  }

  lemma BothReadStores(tasks: seq<Task>, store: seq<string>, a: nat, b: nat)
    requires a < |tasks| && b < |tasks| && a != b
    ensures Raced(tasks, Started(tasks, store), BothRead(tasks, a, b)).store
         == (store + Stored(tasks[a].keys, KeysOf(store), tasks[a].attempts, 0))
            + Stored(tasks[b].keys, KeysOf(store), tasks[b].attempts, 0)
  {
    var start, existing := Started(tasks, store), KeysOf(store);
    var read := Race(store, start.progress[a := Working(existing, 0)][b := Working(existing, 0)]);
    TwoSteps(tasks, start, a, b);
    assert Stepped(tasks, Stepped(tasks, start, a), b) == read;
    var first, second := Times(a, |tasks[a].keys| + 1), Times(b, |tasks[b].keys| + 1);
    RacedParts(tasks, start, [a, b], first + second);
    RacedParts(tasks, read, first, second);
    WorksOn(tasks, read, a, existing, 0, |tasks[a].keys| + 1);
    var half := Raced(tasks, read, first);
    WorksOn(tasks, half, b, existing, 0, |tasks[b].keys| + 1);
  }

  lemma TwoSteps(tasks: seq<Task>, r: Race, a: nat, b: nat)
    ensures Raced(tasks, r, [a, b]) == Stepped(tasks, Stepped(tasks, r, a), b)
  {
    var once := Stepped(tasks, r, a);
    assert [a, b][1..] == [b] && [b][1..] == [];
    assert Raced(tasks, once, [b]) == Raced(tasks, Stepped(tasks, once, b), []);
  }

  lemma InBoth(first: seq<string>, middle: seq<string>, last: seq<string>, key: string)
    requires key in middle && key in last
    ensures !Distinct((first + middle) + last)
  {
    var i :| 0 <= i < |middle| && middle[i] == key;
    var j :| 0 <= j < |last| && last[j] == key;
    var all := (first + middle) + last;
    assert all[|first| + i] == key && all[|first| + |middle| + j] == key;
  }

  lemma TwiceInOne(store: seq<string>, added: seq<string>)
    requires !Distinct(added)
    ensures !Distinct(store + added)
  {
    var m, n :| 0 <= m < n < |added| && added[m] == added[n];
    assert (store + added)[|store| + m] == (store + added)[|store| + n];
  }

  /** A schedule that stores a key twice, when it is at two places and all reviews are stored. */
  lemma RaceStoresTwice(tasks: seq<Task>, store: seq<string>, p: Place, q: Place) returns (schedule: seq<nat>)
    requires forall k :: 0 <= k < |tasks| ==> AllStored(tasks[k].attempts)
    requires IsPlace(tasks, p) && IsPlace(tasks, q) && p != q
    requires KeyAt(tasks, p) == KeyAt(tasks, q) && KeyAt(tasks, p) !in KeysOf(store)
    ensures !Distinct(Raced(tasks, Started(tasks, store), schedule).store)
  {
    var existing := KeysOf(store);
    var a, b := tasks[p.task], tasks[q.task];
    if p.task == q.task {
      schedule := Times(p.task, |a.keys| + 2);
      AloneIsSequential(tasks, Started(tasks, store), p.task);
      if p.request < q.request {
        StoredTwice(a.keys, existing, a.attempts, 0, p.request, q.request);
      } else {
        StoredTwice(a.keys, existing, a.attempts, 0, q.request, p.request);
      }
      TwiceInOne(store, Stored(a.keys, existing, a.attempts, 0));
    } else {
      schedule := BothRead(tasks, p.task, q.task);
      BothReadStores(tasks, store, p.task, q.task);
      StoredAll(a.keys, existing, a.attempts, 0, p.request);
      StoredAll(b.keys, existing, b.attempts, 0, q.request);
      InBoth(store, Stored(a.keys, existing, a.attempts, 0), Stored(b.keys, existing, b.attempts, 0), KeyAt(tasks, p));
    }
  }

  // ---------------------------------------------------------------- deliveries at the same time

  function TaskOf(d: Delivery, attempts: nat -> Attempt): Task {
    Task(Keys(Requests(d)), Marked(Requests(d), attempts))
  }

  /** Background tasks of some deliveries, with what comes of their reviews. */
  function TasksOf(deliveries: seq<Delivery>, attempts: seq<nat -> Attempt>): (tasks: seq<Task>)
    requires |attempts| == |deliveries|
    ensures |tasks| == |deliveries|
  {
    seq(|deliveries|, k requires 0 <= k < |deliveries| => TaskOf(deliveries[k], attempts[k]))
  }

  /** The store after the deliveries have been dealt with at the same time. */
  function StoredTogether(
      deliveries: seq<Delivery>, attempts: seq<nat -> Attempt>, store: seq<string>, schedule: seq<nat>): seq<string>
    requires |attempts| == |deliveries|
  {
    var tasks := TasksOf(deliveries, attempts);
    Raced(tasks, Started(tasks, store), schedule).store
  }

  /** The deliveries have no new key at two places. */
  ghost predicate DeliveriesDiffer(deliveries: seq<Delivery>, existing: set<string>) {
    NewKeysDiffer(TasksOf(deliveries, Each((d: Delivery) => d.attempts, deliveries)), existing)
  }

  lemma AttemptsDoNotMatter(
      deliveries: seq<Delivery>, attempts: seq<nat -> Attempt>, others: seq<nat -> Attempt>, existing: set<string>)
    requires |attempts| == |deliveries| == |others|
    ensures NewKeysDiffer(TasksOf(deliveries, attempts), existing)
        ==> NewKeysDiffer(TasksOf(deliveries, others), existing)
  {
    var tasks, same := TasksOf(deliveries, attempts), TasksOf(deliveries, others);
    assert forall k :: 0 <= k < |tasks| ==> tasks[k].keys == same[k].keys;
    assert forall p :: IsPlace(tasks, p) <==> IsPlace(same, p);
    assert forall p :: IsPlace(tasks, p) ==> KeyAt(tasks, p) == KeyAt(same, p);
  }

  /** However deliveries interleave and whichever reviews fail, no key is stored twice, if and only if no
      two of their new requests have the same key. One after another they may share keys: the second
      reads what the first has stored. */
  lemma RacesExactly(deliveries: seq<Delivery>, store: seq<string>)
    requires Distinct(store)
    ensures (forall attempts, schedule :: |attempts| == |deliveries| ==>
               Distinct(StoredTogether(deliveries, attempts, store, schedule)))
       <==> DeliveriesDiffer(deliveries, KeysOf(store))
  {
    var given := Each((d: Delivery) => d.attempts, deliveries);
    if DeliveriesDiffer(deliveries, KeysOf(store)) {
      forall attempts, schedule | |attempts| == |deliveries|
        ensures Distinct(StoredTogether(deliveries, attempts, store, schedule))
      {
        AttemptsDoNotMatter(deliveries, given, attempts, KeysOf(store));
        RaceIsDistinct(TasksOf(deliveries, attempts), store, schedule);
      }
    } else {
      var stored := Each((d: Delivery) => (i: nat) => Attempt(false, true), deliveries);
      var tasks := TasksOf(deliveries, stored);
      AttemptsDoNotMatter(deliveries, stored, given, KeysOf(store));
      var p, q :| IsPlace(tasks, p) && IsPlace(tasks, q) && p != q && KeyAt(tasks, p) == KeyAt(tasks, q)
                  && KeyAt(tasks, p) !in KeysOf(store);
      var schedule := RaceStoresTwice(tasks, store, p, q);
      assert !Distinct(StoredTogether(deliveries, stored, store, schedule));
    }
  }

  /** A delivery that comes again changes nothing when it comes later; when it comes at the same time, its
      reviews can be stored twice. */
  lemma TwinsRace(d: Delivery) returns (schedule: seq<nat>)
    requires AllStored(d.attempts) && Requests(d) != []
    ensures !Distinct(StoredTogether([d, d], [d.attempts, d.attempts], [], schedule))
  {
    var tasks := TasksOf([d, d], [d.attempts, d.attempts]);
    assert tasks[0] == tasks[1] == TaskOf(d, d.attempts);
    schedule := RaceStoresTwice(tasks, [], Place(0, 0), Place(1, 0));
  }
}
