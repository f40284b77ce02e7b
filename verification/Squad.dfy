/** The thread squad as a transition system: `run` on the main thread and `run_thread` on every squad thread,
    interleaved one step at a time under sequential consistency.

    A wait for a flag is a guard; a toggle is one step. What a thread reads from data that only it writes at that
    time is read in the step that uses it. The fields below `history` are never read by a step, except that the body of a
    task may use what its `reduce` calls returned. */
module Squad {
  import opened Basics
  import opened Tree

  /** What tasks compute with. */
  type Value(!new)

  /** One call of `run`, `transform_reduce` or the destructor.

      `rounds` is the number of `synchronize` or `reduce` calls each participating thread makes. In round `r` thread `i`
      contributes `contribution(r)(i)(sums)`, where `sums` is what its earlier calls returned, and combines with `syncOp(r)`.
      With `reduces` the result of thread `i` is stored and merged. */
  datatype Task = Task(
    concurrency: nat,
    joinRequested: bool,
    rounds: nat,
    contribution: nat -> (nat -> (seq<Value> -> Value)),
    syncOp: nat -> ((Value, Value) -> Value),
    reduces: bool,
    result: nat -> Value,
    reduceOp: (Value, Value) -> Value)

  datatype Handle = NotStarted | Started | Joined

  /** Where a squad thread is. `todo` holds the targets that a walk has not dealt with yet. */
  datatype Pc =
    | Unborn
    | Parked                              // task_wait
    | Notify(todo: seq<nat>)              // notify_subthreads
    | Execute(r: nat)                     // task body, before round r or before its end
    | Collect(r: nat, todo: seq<nat>)     // collect_from_thread: wait
    | Take(r: nat, todo: seq<nat>)        // collect_from_thread: collect
    | Publish(r: nat)                     // syncData_ = sync_data()
    | Raise(r: nat)                       // toggle upward_
    | Await(r: nat)                       // wait for downward_
    | Retract(r: nat)                     // syncData_ = nullptr
    | Give(r: nat, todo: seq<nat>)        // broadcast_to_thread: broadcast
    | Lower(r: nat, todo: seq<nat>)       // broadcast_to_thread: toggle downward_
    | AwaitKids(todo: seq<nat>)           // wait_for_thread: wait
    | Merge(todo: seq<nat>)               // wait_for_thread: merge
    | Signal                              // task_signal_completion
    | BeforeJoin                          // join_subthreads, before the walk
    | Join(todo: seq<nat>)                // join_thread
    | Exited

  datatype Thread = Thread(
    pc: Pc,
    pass: nat,
    task: nat,              // the local reference `task`
    joinRequested: bool,    // the local copy of the flag
    handle: Handle,
    incoming: bool,
    outgoing: bool,
    upward: bool,
    downward: bool,
    published: bool,        // syncData_ points to the thread's own synchronizer data
    acc: Value,             // the synchronizer data
    slot: Option<Value>,    // subthreadData_[i].value
    // history
    woken: nat, completed: nat, arrived: nat, released: nat,
    ran: seq<nat>,          // the tasks this thread has executed
    sums: seq<Value>)       // what the `reduce` calls of the current task returned

  datatype MainPc =
    | Ready                 // between two calls
    | ForkWake(k: nat)      // fork_all_threads, first loop
    | ForkStart(k: nat)     // fork_all_threads, second loop: create the thread
    | ForkRecord(k: nat)    // ... and store its handle
    | NotifyRoot
    | AwaitRoot
    | JoinRoot
    | Release
    | Gone                  // the squad has been destroyed

  /** `calls` lists the tasks of all calls that had work, the current one last; `task` is `task_`. */
  datatype State = State(main: MainPc, task: Option<nat>, calls: seq<Task>, th: seq<Thread>)

  const INT_MAX: nat := 0x7FFF_FFFF

  // ---------- Helpers of the source ----------

  ghost function WakeCount(n: nat, t: Task): nat {
    if t.joinRequested then n else t.concurrency
  }

  /** `num_threads_for_task` */
  ghost function NumThreadsForTask(s: State): nat
    requires s.task.Some? ==> s.task.value < |s.calls|
  {
    if s.task.None? then |s.th| else WakeCount(|s.th|, s.calls[s.task.value])
  }

  ghost predicate IsRunning(x: Thread) {
    x.handle == Started
  }

  ghost predicate HaveWork(s: State, t: Task)
    requires |s.th| >= 1
  {
    t.concurrency != 0 || (t.joinRequested && IsRunning(s.th[0]))
  }

  // ---------- Steps of a squad thread ----------

  /** The object behind the thread's reference is the one that `task_` points to. */
  ghost predicate TaskAlive(s: State, i: nat)
    requires i < |s.th|
  {
    s.task == Some(s.th[i].task) && s.th[i].task < |s.calls|
  }

  /** The program points whose next step may use the task object. */
  ghost predicate UsesTask(pc: Pc) {
    pc.Notify? || pc.Execute? || pc.Collect? || pc.Take? || pc.Retract? || pc.Give? || pc.Lower? || pc.AwaitKids? || pc.Merge?
  }

  ghost predicate Enabled(s: State, i: nat)
    requires i < |s.th|
  {
    var x := s.th[i];
    var n := |s.th|;
    (UsesTask(x.pc) ==> TaskAlive(s, i)) &&
    match x.pc
    case Unborn => false
    case Parked => x.incoming != x.outgoing && s.task.Some? && s.task.value < |s.calls|
    case Notify(todo) => todo != [] ==> todo[0] < n
    case Execute(r) =>
      (r == s.calls[x.task].rounds && s.calls[x.task].reduces) ==> x.slot.None?
    case Collect(r, todo) => todo != [] ==> todo[0] < n && s.th[todo[0]].upward != s.th[todo[0]].downward
    case Take(r, todo) => todo != [] && todo[0] < n && s.th[todo[0]].published
    case Publish(r) => true
    case Raise(r) => true
    case Await(r) => x.downward == x.upward
    case Retract(r) => true
    case Give(r, todo) => todo != [] ==> todo[0] < n && s.th[todo[0]].published
    case Lower(r, todo) => todo != [] && todo[0] < n
    case AwaitKids(todo) => todo != [] ==> todo[0] < n && s.th[todo[0]].outgoing == s.th[todo[0]].incoming
    case Merge(todo) =>
      todo != [] && todo[0] < n &&
      (s.calls[x.task].reduces ==>
         i < s.calls[x.task].concurrency && todo[0] < s.calls[x.task].concurrency &&
         x.slot.Some? && s.th[todo[0]].slot.Some?)
    case Signal => true
    case BeforeJoin => s.task.Some? ==> s.task.value < |s.calls|
    case Join(todo) => todo != [] ==> todo[0] < n && IsRunning(s.th[todo[0]]) && s.th[todo[0]].pc.Exited?
    case Exited => false
  }

  /** The thread is not running, or waits for another one. A join looks at the handle before it waits. */
  ghost predicate Blocked(s: State, i: nat)
    requires i < |s.th|
  {
    var x := s.th[i];
    match x.pc
    case Unborn => true
    case Parked => x.incoming == x.outgoing
    case Collect(r, todo) => todo != [] && todo[0] < |s.th| && s.th[todo[0]].upward == s.th[todo[0]].downward
    case Await(r) => x.downward != x.upward
    case AwaitKids(todo) => todo != [] && todo[0] < |s.th| && s.th[todo[0]].outgoing != s.th[todo[0]].incoming
    case Join(todo) => todo != [] && todo[0] < |s.th| && IsRunning(s.th[todo[0]]) && !s.th[todo[0]].pc.Exited?
    case Exited => true
    case _ => false
  }

  /** The thread goes on, and an assertion, a dereference or an access to an optional value fails. */
  ghost predicate Fails(s: State, i: nat)
    requires i < |s.th|
  {
    !Enabled(s, i) && !Blocked(s, i)
  }

  ghost function EnterBody(n: nat, t: Task, i: nat): Pc
    requires i < n
  {
    if i < t.concurrency then Execute(0) else AwaitKids(Up(n, WakeCount(n, t), i))
  }

  /** The thread after its own step; `t` is its task. */
  ghost function Own(s: State, i: nat): Thread
    requires i < |s.th| && Enabled(s, i)
  {
    var x := s.th[i];
    var n := |s.th|;
    match x.pc
    case Parked =>
      var g := s.task.value;
      x.(pc := Notify(if x.pass > 0 then Down(n, NumThreadsForTask(s), i) else []),
         task := g, joinRequested := s.calls[g].joinRequested, sums := [])
    case Notify(todo) =>
      x.(pc := if todo == [] then EnterBody(n, s.calls[x.task], i) else Notify(todo[1..]))
    case Execute(r) =>
      var t := s.calls[x.task];
      if r < t.rounds then
        x.(pc := Collect(r, Up(n, t.concurrency, i)), acc := t.contribution(r)(i)(x.sums))
      else
        x.(pc := AwaitKids(Up(n, WakeCount(n, t), i)),
           slot := if t.reduces then Some(t.result(i)) else x.slot,
           ran := x.ran + [x.task])
    case Collect(r, todo) =>
      x.(pc := if todo != [] then Take(r, todo)
               else if i > 0 then Publish(r)
               else Give(r, Down(n, s.calls[x.task].concurrency, i)))
    case Take(r, todo) =>
      x.(pc := Collect(r, todo[1..]), acc := s.calls[x.task].syncOp(r)(x.acc, s.th[todo[0]].acc))
    case Publish(r) => x.(pc := Raise(r), published := true)
    case Raise(r) => x.(pc := Await(r), upward := !x.upward, arrived := x.arrived + 1)
    case Await(r) => x.(pc := Retract(r))
    case Retract(r) => x.(pc := Give(r, Down(n, s.calls[x.task].concurrency, i)), published := false)
    case Give(r, todo) =>
      if todo == [] then x.(pc := Execute(r + 1), sums := x.sums + [x.acc]) else x.(pc := Lower(r, todo))
    case Lower(r, todo) => x.(pc := Give(r, todo[1..]))
    case AwaitKids(todo) => x.(pc := if todo == [] then Signal else Merge(todo))
    case Merge(todo) =>
      var t := s.calls[x.task];
      x.(pc := AwaitKids(todo[1..]),
         slot := if t.reduces then Some(t.reduceOp(x.slot.value, s.th[todo[0]].slot.value)) else x.slot)
    case Signal =>
      x.(pc := if x.joinRequested then BeforeJoin else Parked,
         outgoing := !x.outgoing, completed := x.completed + 1,
         pass := if x.pass < INT_MAX then x.pass + 1 else x.pass)
    case BeforeJoin => x.(pc := Join(Up(n, NumThreadsForTask(s), i)))
    case Join(todo) => x.(pc := if todo == [] then Exited else Join(todo[1..]))
  }

  /** The target whose data the step of thread `i` writes, if any. */
  ghost function Target(pc: Pc): Option<nat> {
    if (pc.Notify? || pc.Give? || pc.Lower? || pc.Merge? || pc.Join?) && pc.todo != [] then Some(pc.todo[0]) else None
  }

  /** What the step of a thread `x` does to its target `y`. */
  ghost function Hit(x: Thread, reduces: bool, y: Thread): (z: Thread)
    ensures z.pc == y.pc && z.completed == y.completed
  {
    if x.pc.Notify? then y.(incoming := !y.incoming, woken := y.woken + 1)
    else if x.pc.Give? then y.(acc := x.acc)
    else if x.pc.Lower? then y.(downward := !y.downward, released := y.released + 1)
    else if x.pc.Merge? then if reduces then y.(slot := None) else y
    else y.(handle := Joined)
  }

  ghost function ThreadStep(s: State, i: nat): (s': State)
    requires i < |s.th| && Enabled(s, i)
    ensures |s'.th| == |s.th|
  {
    var x := s.th[i];
    var own := s.th[i := Own(s, i)];
    match Target(x.pc)
    case None => s.(th := own)
    case Some(k) =>
      s.(th := own[k := Hit(x, x.pc.Merge? && s.calls[x.task].reduces, s.th[k])])
  }

  // ---------- Steps of the main thread ----------

  ghost predicate MainEnabled(s: State) {
    var n := |s.th|;
    n >= 1 && (s.task.Some? ==> s.task.value < |s.calls|) &&
    match s.main
    case Ready => false
    case ForkWake(k) => k < NumThreadsForTask(s) ==> k < n
    case ForkStart(k) => k < n ==> s.th[k].handle == NotStarted && s.th[k].pc == Unborn
    case ForkRecord(k) => k < n
    case NotifyRoot => true
    case AwaitRoot => s.task.Some? && s.th[0].outgoing == s.th[0].incoming
    case JoinRoot => IsRunning(s.th[0]) && s.th[0].pc.Exited?
    case Release => s.task.Some?
    case Gone => false
  }

  /** The main thread is outside `run`, or waits for thread 0. */
  ghost predicate MainBlocked(s: State) {
    s.main == Ready || s.main == Gone ||
    (|s.th| >= 1 &&
     ((s.main == AwaitRoot && s.th[0].outgoing != s.th[0].incoming) ||
      (s.main == JoinRoot && IsRunning(s.th[0]) && !s.th[0].pc.Exited?)))
  }

  ghost predicate MainFails(s: State) {
    !MainEnabled(s) && !MainBlocked(s)
  }

  ghost function MainStep(s: State): State
    requires MainEnabled(s)
  {
    match s.main
    case ForkWake(k) =>
      if k < NumThreadsForTask(s) then s.(main := ForkWake(k + 1), th := s.th[k := Wake(s.th[k])])
      else s.(main := ForkStart(0))
    case ForkStart(k) =>
      if k < |s.th| then s.(main := ForkRecord(k), th := s.th[k := s.th[k].(pc := Parked)])
      else s.(main := AwaitRoot)
    case ForkRecord(k) => s.(main := ForkStart(k + 1), th := s.th[k := s.th[k].(handle := Started)])
    case NotifyRoot => s.(main := AwaitRoot, th := s.th[0 := Wake(s.th[0])])
    case AwaitRoot => s.(main := if s.calls[s.task.value].joinRequested then JoinRoot else Release)
    case JoinRoot => s.(main := Release, th := s.th[0 := s.th[0].(handle := Joined)])
    case Release => s.(main := if s.calls[s.task.value].joinRequested then Gone else Ready, task := None)
  }

  ghost function Wake(y: Thread): Thread {
    y.(incoming := !y.incoming, woken := y.woken + 1)
  }

  /** `run` is entered with a task that has work; the reduction slots of a new call are empty. A reduction without
      participants does not enter it. */
  ghost predicate CanCall(s: State, t: Task) {
    s.main == Ready && |s.th| >= 1 && t.concurrency <= |s.th| && HaveWork(s, t) && (t.reduces ==> t.concurrency > 0)
  }

  ghost function Call(s: State, t: Task): State
    requires CanCall(s, t)
  {
    State(if IsRunning(s.th[0]) then NotifyRoot else ForkWake(0), Some(|s.calls|), s.calls + [t],
          seq(|s.th|, i requires 0 <= i < |s.th| => s.th[i].(slot := None)))
  }

  /** A destroying call that has no work: nothing was ever forked. */
  ghost predicate CanDrop(s: State) {
    s.main == Ready && |s.th| >= 1 && !IsRunning(s.th[0])
  }

  // ---------- Runs ----------

  datatype Event = OfThread(i: nat) | OfMain | OfCaller(t: Task) | Drop

  ghost predicate CanHappen(s: State, e: Event) {
    match e
    case OfThread(i) => i < |s.th| && Enabled(s, i)
    case OfMain => MainEnabled(s)
    case OfCaller(t) => CanCall(s, t)
    case Drop => CanDrop(s)
  }

  ghost function After(s: State, e: Event): State
    requires CanHappen(s, e)
  {
    match e
    case OfThread(i) => ThreadStep(s, i)
    case OfMain => MainStep(s)
    case OfCaller(t) => Call(s, t)
    case Drop => s.(main := Gone)
  }

  ghost predicate FreshThread(x: Thread) {
    x.pc == Unborn && x.pass == 0 && x.handle == NotStarted &&
    !x.incoming && !x.outgoing && !x.upward && !x.downward && !x.published && x.slot == None &&
    x.woken == x.completed == x.arrived == x.released == 0 && x.ran == []
  }

  ghost predicate Initial(s: State) {
    s.main == Ready && s.task == None && s.calls == [] && |s.th| >= 1 &&
    forall i :: 0 <= i < |s.th| ==> FreshThread(s.th[i])
  }

  /** `run` leads from `s` to `Final(s, es)` by the events `es`. */
  ghost predicate IsRun(s: State, es: seq<Event>)
    decreases |es|
  {
    es == [] || (CanHappen(s, es[0]) && IsRun(After(s, es[0]), es[1..]))
  }

  ghost function Final(s: State, es: seq<Event>): State
    requires IsRun(s, es)
    decreases |es|
  {
    if es == [] then s else Final(After(s, es[0]), es[1..])
  }

  /** The squad and the main thread step; no new call begins. */
  ghost predicate OfSquad(e: Event) {
    e.OfThread? || e.OfMain?
  }

  ghost predicate IsExecution(s: State, es: seq<Event>) {
    IsRun(s, es) && forall e :: e in es ==> OfSquad(e)
  }

  ghost predicate Stuck(s: State) {
    forall e :: OfSquad(e) ==> !CanHappen(s, e)
  }

  /** The states of all runs, of squads of any size. */
  ghost predicate Reachable(s: State) {
    exists start, es :: Initial(start) && IsRun(start, es) && s == Final(start, es)
  }
}
