/** The task-queue emulator of core/platform/taskqueue/cloud_tasks_emulator.py in
    manual mode: a dictionary of queues kept sorted by due time, drained on request.
    The clock is an integer parameter and the task handler is represented by the
    calls it receives, which the draining methods return. */
module TaskEmulator {
  import opened Wrappers

  /** A task; the payload is kept as its JSON text. */
  datatype Task = Task(queueName: string, url: string, payload: Option<string>, scheduledFor: int, taskName: Option<string>)

  /** Task.__init__: a missing or zero `scheduled_for` means "now". */
  function NewTask(queueName: string, url: string, payload: Option<string>, scheduledFor: Option<int>,
                   taskName: Option<string>, now: int): (t: Task)
    ensures t.queueName == queueName && t.url == url && t.payload == payload && t.taskName == taskName
    ensures (scheduledFor == None || scheduledFor == Some(0)) ==> t.scheduledFor == now
    ensures scheduledFor.Some? && scheduledFor.value != 0 ==> t.scheduledFor == scheduledFor.value
  {
    Task(queueName, url, payload, if scheduledFor.Some? && scheduledFor.value != 0 then scheduledFor.value else now, taskName)
  }

  /** One call of the task handler: the keyword arguments it is given. */
  datatype HandlerCall = HandlerCall(url: string, payload: Option<string>, queueName: string, taskName: Option<string>)

  function CallFor(t: Task): HandlerCall {
    HandlerCall(t.url, t.payload, t.queueName, t.taskName)
  }

  function CallsFor(tasks: seq<Task>): (calls: seq<HandlerCall>)
    ensures |calls| == |tasks| && forall i :: 0 <= i < |tasks| ==> calls[i] == CallFor(tasks[i])
  {
    seq(|tasks|, i requires 0 <= i < |tasks| => CallFor(tasks[i]))
  }

  lemma CallsForConcat(a: seq<Task>, b: seq<Task>)
    ensures CallsFor(a + b) == CallsFor(a) + CallsFor(b)
  {
  }

  predicate SortedByTime(q: seq<Task>) {
    forall i, j :: 0 <= i < j < |q| ==> q[i].scheduledFor <= q[j].scheduledFor
  }

  /** What `append` followed by the stable sort on `scheduled_for` makes of a sorted
      queue: the new task goes after every task due no later than it. */
  function InsertByTime(q: seq<Task>, t: Task): (r: seq<Task>)
    ensures |r| == |q| + 1
    decreases |q|
  {
    if q == [] then [t]
    else if q[|q| - 1].scheduledFor <= t.scheduledFor then q + [t]
    else InsertByTime(q[..|q| - 1], t) + [q[|q| - 1]]
  }

  /** Where InsertByTime puts the new task: after the last task due no later than it. */
  function InsertIndex(q: seq<Task>, t: Task): (k: nat)
    ensures k <= |q|
    decreases |q|
  {
    if q == [] then 0
    else if q[|q| - 1].scheduledFor <= t.scheduledFor then |q|
    else InsertIndex(q[..|q| - 1], t)
  }

  /** The insertion only places the new task; the old tasks keep their order. */
  lemma {:induction false} InsertByTimeSplits(q: seq<Task>, t: Task)
    ensures InsertByTime(q, t) == q[..InsertIndex(q, t)] + [t] + q[InsertIndex(q, t)..]
    decreases |q|
  {
    if q != [] && q[|q| - 1].scheduledFor > t.scheduledFor {
      var init := q[..|q| - 1];
      var k := InsertIndex(init, t);
      InsertByTimeSplits(init, t);
      assert q[..k] == init[..k];
      assert q[k..] == init[k..] + [q[|q| - 1]];
    }
  }

  /** In a sorted queue, the tasks before the insertion point are due no later than the
      new task, and those after it strictly later: equal times keep insertion order. */
  lemma {:induction false} InsertIndexSeparates(q: seq<Task>, t: Task)
    requires SortedByTime(q)
    ensures forall i :: 0 <= i < InsertIndex(q, t) ==> q[i].scheduledFor <= t.scheduledFor
    ensures forall i :: InsertIndex(q, t) <= i < |q| ==> q[i].scheduledFor > t.scheduledFor
    decreases |q|
  {
    if q != [] && q[|q| - 1].scheduledFor > t.scheduledFor {
      var init := q[..|q| - 1];
      InsertIndexSeparates(init, t);
    }
  }

  /** The insertion keeps a sorted queue sorted and adds exactly the one task. */
  lemma InsertByTimeSorted(q: seq<Task>, t: Task)
    requires SortedByTime(q)
    ensures SortedByTime(InsertByTime(q, t))
    ensures multiset(InsertByTime(q, t)) == multiset(q) + multiset{t}
  {
    InsertByTimeSplits(q, t);
    InsertIndexSeparates(q, t);
    var k := InsertIndex(q, t);
    var r := InsertByTime(q, t);
    InsertByTimeElements(q, t);
    forall i, j | 0 <= i < j < |r| ensures r[i].scheduledFor <= r[j].scheduledFor {
      if i < k && j > k { assert r[i] == q[i] && r[j] == q[j - 1]; }
      else if i < k && j < k { assert r[i] == q[i] && r[j] == q[j]; }
      else if i > k { assert r[i] == q[i - 1] && r[j] == q[j - 1]; }
    }
    InsertByTimeMultiset(q, t);
  }

  /** Where each task of the insertion's result comes from. */
  lemma InsertByTimeElements(q: seq<Task>, t: Task)
    ensures var k, r := InsertIndex(q, t), InsertByTime(q, t);
      forall i :: 0 <= i < |r| ==> r[i] == if i < k then q[i] else if i == k then t else q[i - 1]
  {
    InsertByTimeSplits(q, t);
  }

  lemma InsertByTimeMultiset(q: seq<Task>, t: Task)
    ensures multiset(InsertByTime(q, t)) == multiset(q) + multiset{t}
  {
    InsertByTimeSplits(q, t);
    var k := InsertIndex(q, t);
    var a, b := q[..k], q[k..];
    assert q == a + b;
    assert multiset(a + [t] + b) == multiset(a) + multiset{t} + multiset(b);
  }


  /** The number of tasks in the named queues. */
  function Total(names: seq<string>, queues: map<string, seq<Task>>): nat
    requires forall i :: 0 <= i < |names| ==> names[i] in queues
  {
    if names == [] then 0 else Total(names[..|names| - 1], queues) + |queues[names[|names| - 1]]|
  }

  /** Replacing one queue changes the total by the difference in its length. */
  lemma {:induction false} TotalUpdate(names: seq<string>, queues: map<string, seq<Task>>, n: string, q: seq<Task>)
    requires forall i :: 0 <= i < |names| ==> names[i] in queues
    requires forall i, j :: 0 <= i < j < |names| ==> names[i] != names[j]
    requires n in queues
    ensures Total(names, queues[n := q]) ==
      Total(names, queues) + (if n in names then |q| - |queues[n]| else 0)
  {
    if names != [] {
      var init := names[..|names| - 1];
      TotalUpdate(init, queues, n, q);
      assert n in names <==> n in init || n == names[|names| - 1];
      if n == names[|names| - 1] {
        assert n !in init;
      }
    }
  }

  /** Queues that are all empty hold no task. */
  lemma {:induction false} TotalOfEmpty(names: seq<string>, queues: map<string, seq<Task>>)
    requires forall i :: 0 <= i < |names| ==> names[i] in queues && queues[names[i]] == []
    ensures Total(names, queues) == 0
  {
    if names != [] {
      TotalOfEmpty(names[..|names| - 1], queues);
    }
  }

  /** Adding a queue at the end of the order adds its length. */
  lemma TotalAppend(names: seq<string>, queues: map<string, seq<Task>>, n: string)
    requires forall i :: 0 <= i < |names| ==> names[i] in queues
    requires n in queues
    ensures Total(names + [n], queues) == Total(names, queues) + |queues[n]|
  {
    assert (names + [n])[..|names|] == names;
  }

  /** Queues not in the order do not count. */
  lemma {:induction false} TotalIgnoresOthers(names: seq<string>, queues: map<string, seq<Task>>, n: string, q: seq<Task>)
    requires forall i :: 0 <= i < |names| ==> names[i] in queues
    requires n !in names
    ensures Total(names, queues[n := q]) == Total(names, queues)
  {
    if names != [] {
      TotalIgnoresOthers(names[..|names| - 1], queues, n, q);
    }
  }

  /** The tasks of the named queues, queue after queue. */
  function AllTasks(names: seq<string>, queues: map<string, seq<Task>>): (r: seq<Task>)
    requires forall i :: 0 <= i < |names| ==> names[i] in queues
    ensures |r| == Total(names, queues)
  {
    if names == [] then [] else AllTasks(names[..|names| - 1], queues) + queues[names[|names| - 1]]
  }

  /** The emulator's invariant: `names` lists each queue once, in the dictionary's
      iteration order, and every queue is sorted by due time. */
  predicate WellFormed(names: seq<string>, queues: map<string, seq<Task>>) {
    (forall i :: 0 <= i < |names| ==> names[i] in queues) &&
    (forall n :: n in queues ==> n in names) &&
    (forall i, j :: 0 <= i < j < |names| ==> names[i] != names[j]) &&
    (forall n :: n in queues ==> SortedByTime(queues[n]))
  }

  /** Replacing a queue by a sorted one keeps the invariant. */
  lemma WellFormedUpdate(names: seq<string>, queues: map<string, seq<Task>>, n: string, q: seq<Task>)
    requires WellFormed(names, queues) && n in queues && SortedByTime(q)
    ensures WellFormed(names, queues[n := q])
  {
  }

  /** Adding an unknown queue, empty, at the end of the order keeps the invariant. */
  lemma WellFormedAdd(names: seq<string>, queues: map<string, seq<Task>>, n: string)
    requires WellFormed(names, queues) && n !in queues
    ensures WellFormed(names + [n], queues[n := []])
  {
    assert n !in names;
  }

  /** Emptying every listed queue keeps the invariant and leaves nothing enqueued. */
  lemma WellFormedEmptied(names: seq<string>, original: map<string, seq<Task>>, queues: map<string, seq<Task>>)
    requires WellFormed(names, original) && queues.Keys == original.Keys
    requires forall j :: 0 <= j < |names| ==> queues[names[j]] == []
    ensures WellFormed(names, queues)
    ensures forall n :: n in queues ==> queues[n] == []
    ensures Total(names, queues) == 0
  {
    forall n | n in queues ensures queues[n] == [] {
      var j :| 0 <= j < |names| && names[j] == n;
    }
    TotalOfEmpty(names, queues);
  }

  /** A second update of the same key replaces the first. */
  lemma UpdateTwice(m: map<string, seq<Task>>, k: string, a: seq<Task>, b: seq<Task>)
    ensures m[k := a][k := b] == m[k := b]
  {
    var l, r := m[k := a][k := b], m[k := b];
    assert l.Keys == r.Keys;
    assert forall x :: x in l ==> l[x] == r[x];
  }

  /** `queue_name and queue_name in self.__queues`: a given, non-empty, known name. */
  predicate Names(name: Option<string>, queues: map<string, seq<Task>>) {
    name.Some? && name.value != "" && name.value in queues
  }

  /** `queue.append(task)` followed by the stable sort on `scheduled_for`, for a queue
      that is already sorted: the task moves forward past the tasks due later. */
  method AppendAndSort(queue: seq<Task>, t: Task) returns (sorted: seq<Task>)
    ensures sorted == InsertByTime(queue, t)
  {
    var k := |queue|;
    assert queue[..k] == queue && queue[k..] == [];
    while k > 0 && queue[k - 1].scheduledFor > t.scheduledFor
      invariant 0 <= k <= |queue|
      invariant InsertByTime(queue, t) == InsertByTime(queue[..k], t) + queue[k..]
    {
      assert queue[..k][..k - 1] == queue[..k - 1];
      assert queue[k - 1..] == [queue[k - 1]] + queue[k..];
      k := k - 1;
    }
    assert InsertByTime(queue[..k], t) == queue[..k] + [t] by {
      if k > 0 { assert queue[..k][k - 1] == queue[k - 1]; }
    }
    sorted := queue[..k] + [t] + queue[k..];
  }

  /** _execute_tasks: one handler call per task, in list order. */
  method ExecuteTasks(tasks: seq<Task>) returns (calls: seq<HandlerCall>)
    ensures calls == CallsFor(tasks)
  {
    calls := [];
    var i := 0;
    while i < |tasks|
      invariant 0 <= i <= |tasks|
      invariant calls == CallsFor(tasks[..i])
    {
      calls := calls + [CallFor(tasks[i])];
      i := i + 1;
    }
    assert tasks[..i] == tasks;
  }

  /** The loop of process_and_flush_tasks over every queue, in order: each queue's
      tasks are executed, then the queue is emptied. */
  method DrainQueues(names: seq<string>, queues: map<string, seq<Task>>)
    returns (calls: seq<HandlerCall>, emptied: map<string, seq<Task>>)
    requires WellFormed(names, queues)
    ensures calls == CallsFor(AllTasks(names, queues))
    ensures emptied.Keys == queues.Keys
    ensures forall j :: 0 <= j < |names| ==> emptied[names[j]] == []
  {
    calls := [];
    emptied := queues;
    var i := 0;
    while i < |names|
      invariant 0 <= i <= |names|
      invariant emptied.Keys == queues.Keys
      invariant forall j :: 0 <= j < i ==> emptied[names[j]] == []
      invariant forall j :: i <= j < |names| ==> emptied[names[j]] == queues[names[j]]
      invariant calls == CallsFor(AllTasks(names[..i], queues))
    {
      AllTasksStep(names, queues, i);
      var executed := ExecuteTasks(emptied[names[i]]);
      calls := calls + executed;
      emptied := emptied[names[i] := []];
      i := i + 1;
    }
    assert names[..i] == names;
  }

  /** Draining the next queue adds its calls after those of the queues before it. */
  lemma AllTasksStep(names: seq<string>, queues: map<string, seq<Task>>, i: nat)
    requires i < |names| && forall j :: 0 <= j < |names| ==> names[j] in queues
    ensures CallsFor(AllTasks(names[..i + 1], queues)) ==
      CallsFor(AllTasks(names[..i], queues)) + CallsFor(queues[names[i]])
  {
    assert names[..i + 1][..i] == names[..i];
    CallsForConcat(AllTasks(names[..i], queues), queues[names[i]]);
  }


  class Emulator {
    /** The queues, and their names in the order the dictionary iterates them. That order
        is not fixed by the model: adding a queue may put the new name anywhere and
        reorder the others (Python 2 iterates a dictionary in hash order); storing into
        an existing queue leaves it as it was. */
    var queues: map<string, seq<Task>>
    var names: seq<string>

    ghost predicate Valid()
      reads this
    {
      WellFormed(names, queues)
    }

    /** The number of tasks across all queues. */
    function TotalTasks(): nat
      reads this
      requires Valid()
    {
      Total(names, queues)
    }

    constructor()
      ensures Valid() && queues == map[] && names == []
    {
      queues := map[];
      names := [];
    }

    /** The queue-creating part of create_task: an unknown queue is added, empty, and its
        name joins the iteration order at a place the model leaves open. */
    method EnsureQueue(queueName: string)
      requires Valid()
      modifies this
      ensures Valid() && queueName in queues
      ensures queues == if queueName in old(queues) then old(queues) else old(queues)[queueName := []]
      ensures queueName in old(queues) ==> names == old(names)
      ensures queueName !in old(queues) ==> multiset(names) == multiset(old(names)) + multiset{queueName}
      ensures TotalTasks() == old(TotalTasks())
    {
      if queueName !in queues {
        WellFormedAdd(names, queues, queueName);
        TotalIgnoresOthers(names, queues, queueName, []);
        queues := queues[queueName := []];
        TotalAppend(names, queues, queueName);
        names := names + [queueName];
      }
    }

    /** create_task: adds the task to its queue (creating the queue when needed) and
        keeps the queue sorted by due time, stably. */
    method CreateTask(queueName: string, url: string, payload: Option<string>, scheduledFor: Option<int>,
                      taskName: Option<string>, now: int)
      requires Valid()
      modifies this
      ensures Valid()
      ensures var t := NewTask(queueName, url, payload, scheduledFor, taskName, now);
        var before := if queueName in old(queues) then old(queues)[queueName] else [];
        queues == old(queues)[queueName := InsertByTime(before, t)]
      ensures queueName in old(queues) ==> names == old(names)
      ensures queueName !in old(queues) ==> multiset(names) == multiset(old(names)) + multiset{queueName}
      ensures TotalTasks() == old(TotalTasks()) + 1
    {
      var t := NewTask(queueName, url, payload, scheduledFor, taskName, now);
      EnsureQueue(queueName);
      if queueName !in old(queues) {
        UpdateTwice(old(queues), queueName, [], InsertByTime([], t));
      }
      InsertTask(t);
    }

    /** The inserting part of create_task, once the task's queue exists. */
    method InsertTask(t: Task)
      requires Valid() && t.queueName in queues
      modifies this
      ensures Valid() && names == old(names)
      ensures queues == old(queues)[t.queueName := InsertByTime(old(queues)[t.queueName], t)]
      ensures TotalTasks() == old(TotalTasks()) + 1
    {
      var queue := queues[t.queueName];
      InsertByTimeSorted(queue, t);
      var sorted := AppendAndSort(queue, t);
      WellFormedUpdate(names, queues, t.queueName, sorted);
      TotalUpdate(names, queues, t.queueName, sorted);
      queues := queues[t.queueName := sorted];
    }

    /** _total_enqueued_tasks: sums the queue lengths. */
    method TotalEnqueuedTasks() returns (n: nat)
      requires Valid()
      ensures n == TotalTasks()
    {
      n := 0;
      var i := 0;
      while i < |names|
        invariant 0 <= i <= |names|
        invariant n == Total(names[..i], queues)
      {
        assert names[..i + 1][..i] == names[..i];
        n := n + |queues[names[i]]|;
        i := i + 1;
      }
      assert names[..i] == names;
    }

    /** get_number_of_tasks: the length of the named queue, or the total when no known
        queue is named. */
    method GetNumberOfTasks(name: Option<string>) returns (n: nat)
      requires Valid()
      ensures Names(name, queues) ==> n == |queues[name.value]|
      ensures !Names(name, queues) ==> n == TotalTasks()
    {
      if name.Some? && name.value != "" && name.value in queues {
        n := |queues[name.value]|;
      } else {
        n := TotalEnqueuedTasks();
      }
    }

    /** process_and_flush_tasks: a known queue is executed in order and emptied; with no
        known queue named, every queue is, in the dictionary's iteration order. */
    method ProcessAndFlushTasks(name: Option<string>) returns (calls: seq<HandlerCall>)
      requires Valid()
      modifies this
      ensures Valid() && names == old(names)
      ensures Names(name, old(queues)) ==>
        calls == CallsFor(old(queues)[name.value]) && queues == old(queues)[name.value := []] &&
        TotalTasks() == old(TotalTasks()) - |old(queues)[name.value]|
      ensures !Names(name, old(queues)) ==>
        calls == CallsFor(AllTasks(old(names), old(queues))) &&
        queues.Keys == old(queues).Keys && (forall n :: n in queues ==> queues[n] == []) &&
        TotalTasks() == 0
    {
      if name.Some? && name.value != "" && name.value in queues {
        calls := ExecuteTasks(queues[name.value]);
        WellFormedUpdate(names, queues, name.value, []);
        TotalUpdate(names, queues, name.value, []);
        queues := queues[name.value := []];
      } else {
        calls := FlushAll();
      }
    }

    /** The branch of process_and_flush_tasks that drains every queue. */
    method FlushAll() returns (calls: seq<HandlerCall>)
      requires Valid()
      modifies this
      ensures Valid() && names == old(names)
      ensures calls == CallsFor(AllTasks(old(names), old(queues)))
      ensures queues.Keys == old(queues).Keys && (forall n :: n in queues ==> queues[n] == [])
      ensures TotalTasks() == 0
    {
      var emptied;
      calls, emptied := DrainQueues(names, queues);
      WellFormedEmptied(names, queues, emptied);
      queues := emptied;
    }

    /** One pass of __process_queue: the head of the queue is removed and handed over
        only when it is due; otherwise nothing changes. */
    method ProcessQueueStep(name: string, now: int) returns (task: Option<Task>)
      requires Valid() && name in queues
      modifies this
      ensures Valid() && names == old(names)
      ensures old(queues)[name] != [] && old(queues)[name][0].scheduledFor <= now ==>
        task == Some(old(queues)[name][0]) && queues == old(queues)[name := old(queues)[name][1..]] &&
        TotalTasks() == old(TotalTasks()) - 1
      ensures !(old(queues)[name] != [] && old(queues)[name][0].scheduledFor <= now) ==>
        task == None && queues == old(queues)
    {
      var queue := queues[name];
      task := None;
      if queue != [] {
        var peek := queue[0];
        if peek.scheduledFor <= now {
          task := Some(peek);
          WellFormedUpdate(names, queues, name, queue[1..]);
          TotalUpdate(names, queues, name, queue[1..]);
          queues := queues[name := queue[1..]];
        }
      }
    }
  }

  /** The queues stay sorted through a dequeue step, so what remains after a task that
      is not due is not due either. */
  lemma NothingDueBehindHead(q: seq<Task>, now: int)
    requires SortedByTime(q) && q != [] && q[0].scheduledFor > now
    ensures forall i :: 0 <= i < |q| ==> q[i].scheduledFor > now
  {
  }
}
