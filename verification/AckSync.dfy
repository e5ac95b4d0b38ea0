/**
 One client request and everything that races for it: the thread that owns it and sends and waits, the replies that
 carry its xid, and the expiries.  The flags ACKSYNC and BACKSYNC decide who completes it.
 */
module AckSync {

  /** A reply or an expiry task: at its gate, turned away, let through, or about to call the completion callback. */
  datatype Task = NoTask | ReplyGate | Ignored | Accepted | Callback | ExpireGate

  /** The owner: not waiting, sending, waiting, using up a refresh (which is read, then written), clearing the flag. */
  datatype Owner = Free | Sending | Waiting | Loading | Storing(r: int) | Retrying | Clearing

  /**
   `sends` counts the sends of the current wait.  Since ACKSYNC was last cleared, `admitted` tasks were let through
   and `called` callbacks were made; `before` tasks had been let through earlier and had not called back yet.  `clean`
   tells whether that left both flags clear.
   */
  datatype State = State(ack: bool, back: bool, refreshes: int, owner: Owner, tasks: seq<Task>,
                         sends: nat, admitted: nat, called: nat, before: nat, clean: bool)

  function Pending(tasks: seq<Task>): nat {
    if tasks == [] then 0 else Due(tasks[0]) + Pending(tasks[1..])
  }

  function Due(task: Task): nat {
    if task == Accepted || task == Callback then 1 else 0
  }

  lemma {:induction false} PendingUpdate(tasks: seq<Task>, t: nat, b: Task)
    requires t < |tasks|
    ensures Pending(tasks[t := b]) == Pending(tasks) - Due(tasks[t]) + Due(b)
  {
    if t == 0 {
      assert tasks[t := b][1..] == tasks[1..];
    } else {
      assert tasks[t := b][1..] == tasks[1..][t - 1 := b];
      PendingUpdate(tasks[1..], t - 1, b);
    }
  }

  // ----- replies and expiry tasks -----

  predicate Open(s: State) {
    !s.ack && !s.back
  }

  predicate TaskStep(s: State, t: nat, b: Task, s': State)
    requires t < |s.tasks|
  {
    var moved := s.(tasks := s.tasks[t := b]);
    match s.tasks[t]
    case NoTask => (b == ReplyGate || b == ExpireGate) && s' == moved
    case ReplyGate =>
      if Open(s) then b == Accepted && s' == moved.(ack := true, admitted := s.admitted + 1)
      else b == Ignored && s' == moved.(ack := true)
    case Ignored => b == NoTask && s' == moved.(refreshes := 0)
    case Accepted => b == Callback && (s' == moved || s' == moved.(refreshes := 0))
    case Callback => b == NoTask && s' == moved.(called := s.called + 1)
    case ExpireGate =>
      || (b == NoTask && s' == moved)
      || (Open(s) && b == Callback && s' == moved.(back := true, admitted := s.admitted + 1))
      || (!Open(s) && b == NoTask && s' == moved.(back := true))
  }

  // ----- the owner -----

  /** ACKSYNC is cleared, and BACKSYNC as well if the flags are assigned as a whole. */
  function Cleared(s: State, all: bool): State {
    s.(ack := false, back := s.back && !all, admitted := 0, called := 0, before := Pending(s.tasks), clean := !s.back || all)
  }

  predicate OwnerStep(s: State, s': State) {
    match s.owner
    case Free =>
      || s' == Cleared(s, true).(refreshes := 2)   // setup
      || s' == Cleared(s, true)                    // put into the expiry queue
      || s' == Cleared(s, false)                   // reset
      || s' == s.(owner := Sending, sends := 0)    // wait for a reply
    case Sending => s' == s.(owner := Waiting, sends := s.sends + 1) || s' == s.(owner := Free, sends := s.sends + 1)
    case Waiting => s' == s.(owner := Loading) || (!s.ack && s' == s.(owner := Free))
    case Loading => s' == s.(owner := Storing(s.refreshes))
    case Storing(r) => s' == s.(refreshes := r - 1, owner := if r > 0 then Retrying else Free)
    case Retrying => s' == s.(owner := Clearing) || s' == s.(owner := Free)
    case Clearing => s' == Cleared(s, false).(owner := Sending)
  }

  ghost predicate Next(s: State, s': State) {
    || OwnerStep(s, s')
    || exists t, b :: 0 <= t < |s.tasks| && TaskStep(s, t, b, s')
  }

  /** Right after the first setup. */
  predicate Start(s: State) {
    && Open(s) && s.clean && s.refreshes == 2 && s.owner == Free && s.sends == s.admitted == s.called == s.before == 0
    && forall t :: 0 <= t < |s.tasks| ==> s.tasks[t] == NoTask
  }

  ghost predicate IsRun(run: seq<State>) {
    && |run| > 0 && Start(run[0])
    && forall i :: 0 <= i < |run| - 1 ==> Next(run[i], run[i + 1])
  }

  // ----- what every run keeps -----

  ghost predicate Inv(s: State) {
    && s.admitted == (if s.clean && !Open(s) then 1 else 0) && (Open(s) ==> s.clean)
    && s.before + s.admitted == s.called + Pending(s.tasks)
    && s.refreshes <= 2
    && (s.owner == Sending ==> s.sends <= 2 && s.refreshes <= 2 - s.sends)
    && (s.owner == Waiting || s.owner == Loading ==> 1 <= s.sends <= 3 && s.refreshes <= 3 - s.sends)
    && (s.owner.Storing? ==> 1 <= s.sends <= 3 && s.refreshes <= 3 - s.sends && s.owner.r <= 3 - s.sends)
    && (s.owner == Retrying || s.owner == Clearing ==> 1 <= s.sends <= 2 && s.refreshes <= 2 - s.sends)
    && (s.owner == Free ==> s.sends <= 3)
  }

  lemma {:induction false} OwnerKeeps(s: State, s': State)
    requires Inv(s) && OwnerStep(s, s')
    ensures Inv(s')
  {
  }

  lemma {:induction false} TaskKeeps(s: State, t: nat, b: Task, s': State)
    requires t < |s.tasks| && Inv(s) && TaskStep(s, t, b, s')
    ensures Inv(s')
  {
    PendingUpdate(s.tasks, t, b);
  }

  lemma {:induction false} NothingPending(tasks: seq<Task>)
    requires forall t :: 0 <= t < |tasks| ==> tasks[t] == NoTask
    ensures Pending(tasks) == 0
  {
    if tasks != [] { NothingPending(tasks[1..]); }
  }

  lemma {:induction false} RunInv(run: seq<State>, i: nat)
    requires IsRun(run) && i < |run|
    ensures Inv(run[i])
  {
    if i == 0 {
      NothingPending(run[0].tasks);
    } else {
      RunInv(run, i - 1);
      var s, s' := run[i - 1], run[i];
      assert Next(run[i - 1], run[i - 1 + 1]);
      if OwnerStep(s, s') {
        OwnerKeeps(s, s');
      } else {
        var t, b :| 0 <= t < |s.tasks| && TaskStep(s, t, b, s');
        TaskKeeps(s, t, b, s');
      }
    }
  }

  /**
   Between two clears of ACKSYNC one reply or expiry is let through as soon as any sets a flag, if the clear left none
   set, and otherwise none.  Every one that is let through calls back once: at most one callback is made, unless tasks let
   through before the clear are late with theirs.
   */
  lemma {:induction false} OnePerClear(run: seq<State>, i: nat)
    requires IsRun(run) && i < |run|
    ensures run[i].admitted == if run[i].clean && (run[i].ack || run[i].back) then 1 else 0
    ensures run[i].called + Pending(run[i].tasks) == run[i].before + run[i].admitted
    ensures run[i].called <= run[i].before + 1
    ensures run[i].before == 0 ==> run[i].called <= 1
  {
    RunInv(run, i);
  }

  /** A wait that follows a setup sends at most three times. */
  lemma {:induction false} ThreeSends(run: seq<State>, i: nat)
    requires IsRun(run) && i < |run|
    ensures run[i].sends <= 3
  {
    RunInv(run, i);
  }

  /** How far the owner is from the end of its wait. */
  function Distance(s: State): nat
    requires Inv(s)
  {
    match s.owner
    case Free => 0
    case Sending => 6 * (3 - s.sends)
    case Waiting => 6 * (3 - s.sends) + 5
    case Loading => 6 * (3 - s.sends) + 4
    case Storing(r) => 6 * (3 - s.sends) + 3
    case Retrying => 6 * (3 - s.sends) + 2
    case Clearing => 6 * (3 - s.sends) + 1
  }

  lemma {:induction false} OwnerCloser(s: State, s': State)
    requires Inv(s) && Inv(s') && OwnerStep(s, s') && s.owner != Free
    ensures Distance(s') < Distance(s)
  {
  }

  lemma {:induction false} TaskAside(s: State, t: nat, b: Task, s': State)
    requires t < |s.tasks| && TaskStep(s, t, b, s')
    ensures s'.owner == s.owner && s'.sends == s.sends
  {
  }

  /** Every step of a waiting owner brings it closer to the end, and no step of another task takes it back. */
  lemma {:induction false} WaitEnds(run: seq<State>, i: nat)
    requires IsRun(run) && i + 1 < |run| && run[i].owner != Free
    ensures Inv(run[i]) && Inv(run[i + 1])
    ensures if OwnerStep(run[i], run[i + 1]) then Distance(run[i + 1]) < Distance(run[i])
            else Distance(run[i + 1]) == Distance(run[i])
  {
    RunInv(run, i);
    RunInv(run, i + 1);
    var s, s' := run[i], run[i + 1];
    assert Next(run[i], run[i + 1]);
    if OwnerStep(s, s') {
      OwnerCloser(s, s');
    } else {
      var t, b :| 0 <= t < |s.tasks| && TaskStep(s, t, b, s');
      TaskAside(s, t, b, s');
    }
  }

  // ----- two callbacks between two clears -----

  lemma {:induction false} Extend(run: seq<State>, s: State, s': State) returns (run': seq<State>)
    requires IsRun(run) && run[|run| - 1] == s && Next(s, s')
    ensures IsRun(run') && run' == run + [s'] && run'[|run'| - 1] == s'
  {
    run' := run + [s'];
    forall i | 0 <= i < |run'| - 1 ensures Next(run'[i], run'[i + 1]) {
      if i < |run| - 1 { assert Next(run[i], run[i + 1]); }
    }
  }

  lemma {:induction false} OwnerMoves(run: seq<State>, s: State, s': State) returns (run': seq<State>)
    requires IsRun(run) && run[|run| - 1] == s && OwnerStep(s, s')
    ensures IsRun(run') && run'[|run'| - 1] == s'
  {
    run' := Extend(run, s, s');
  }

  /** The steps that clear ACKSYNC. */
  ghost predicate Clears(s: State, s': State) {
    OwnerStep(s, s') && (s.owner == Clearing || (s.owner == Free && s'.owner == Free))
  }

  ghost predicate Unbroken(run: seq<State>, k: nat) {
    forall i :: k <= i < |run| - 1 ==> !Clears(run[i], run[i + 1])
  }

  lemma {:induction false} TaskMoves(s: State, t: nat, b: Task, s': State)
    requires t < |s.tasks| && TaskStep(s, t, b, s')
    ensures Next(s, s') && !Clears(s, s')
  {
    assert s'.tasks[t] != s.tasks[t];
  }

  lemma {:induction false} TaskGoes(run: seq<State>, k: nat, s: State, t: nat, b: Task, s': State) returns (run': seq<State>)
    requires IsRun(run) && run[|run| - 1] == s && t < |s.tasks| && TaskStep(s, t, b, s') && Unbroken(run, k)
    ensures IsRun(run') && run' == run + [s'] && run'[|run'| - 1] == s' && Unbroken(run', k)
  {
    TaskMoves(s, t, b, s');
    run' := Extend(run, s, s');
    forall i | k <= i < |run'| - 1 ensures !Clears(run'[i], run'[i + 1]) {
      if i < |run| - 1 { assert !Clears(run[i], run[i + 1]); }
    }
  }

  /** A further reply that comes in and calls back. */
  lemma {:induction false} OneMoreReply(run: seq<State>, s: State, u: nat) returns (run': seq<State>)
    requires IsRun(run) && run[|run| - 1] == s && Open(s) && u < |s.tasks| && s.tasks[u] == NoTask
    ensures IsRun(run') && run <= run' && Unbroken(run', |run| - 1)
    ensures run'[|run'| - 1] == s.(ack := true, admitted := s.admitted + 1, called := s.called + 1)
  {
    var s1 := s.(tasks := s.tasks[u := ReplyGate]);
    var s2 := s.(tasks := s.tasks[u := Accepted], ack := true, admitted := s.admitted + 1);
    var s3 := s2.(tasks := s.tasks[u := Callback]);
    var s4 := s2.(tasks := s.tasks, called := s.called + 1);
    assert s1.tasks[u := Accepted] == s2.tasks && s2.tasks[u := Callback] == s3.tasks && s3.tasks[u := NoTask] == s.tasks;
    var k := |run| - 1;
    run' := TaskGoes(run, k, s, u, ReplyGate, s1);
    run' := TaskGoes(run', k, s1, u, Accepted, s2);
    run' := TaskGoes(run', k, s2, u, Callback, s3);
    run' := TaskGoes(run', k, s3, u, NoTask, s4);
  }

  /** Or an expiry does, if the gate is open to it. */
  lemma {:induction false} ExpiryCallsBack(run: seq<State>, s: State, u: nat) returns (run': seq<State>)
    requires IsRun(run) && run[|run| - 1] == s && Open(s) && u < |s.tasks| && s.tasks[u] == NoTask
    ensures IsRun(run') && run <= run' && Unbroken(run', |run| - 1)
    ensures run'[|run'| - 1] == s.(back := true, admitted := s.admitted + 1, called := s.called + 1)
  {
    var s1 := s.(tasks := s.tasks[u := ExpireGate]);
    var s2 := s.(tasks := s.tasks[u := Callback], back := true, admitted := s.admitted + 1);
    var s3 := s2.(tasks := s.tasks, called := s.called + 1);
    assert s1.tasks[u := Callback] == s2.tasks && s2.tasks[u := NoTask] == s.tasks;
    var k := |run| - 1;
    run' := TaskGoes(run, k, s, u, ExpireGate, s1);
    run' := TaskGoes(run', k, s1, u, Callback, s2);
    run' := TaskGoes(run', k, s2, u, NoTask, s3);
  }

  lemma {:induction false} SomeDue(tasks: seq<Task>) returns (t: nat)
    requires Pending(tasks) > 0
    ensures t < |tasks| && Due(tasks[t]) == 1
  {
    if Due(tasks[0]) == 1 { return 0; }
    t := SomeDue(tasks[1..]);
    t := t + 1;
  }

  /** A task that has been let through calls back. */
  lemma {:induction false} OneCallback(run: seq<State>, k: nat) returns (run': seq<State>)
    requires IsRun(run) && k < |run| && Unbroken(run, k) && Pending(run[|run| - 1].tasks) > 0
    ensures IsRun(run') && run <= run' && Unbroken(run', k)
    ensures run'[|run'| - 1].called == run[|run| - 1].called + 1
    ensures Pending(run'[|run'| - 1].tasks) == Pending(run[|run| - 1].tasks) - 1
  {
    run' := run;
    var s := run[|run| - 1];
    var t := SomeDue(s.tasks);
    PendingUpdate(s.tasks, t, NoTask);
    if s.tasks[t] == Accepted {
      run' := TaskGoes(run, k, s, t, Callback, s.(tasks := s.tasks[t := Callback]));
      s := run'[|run'| - 1];
      assert s.tasks[t := NoTask] == run[|run| - 1].tasks[t := NoTask];
    }
    run' := TaskGoes(run', k, s, t, NoTask, s.(tasks := s.tasks[t := NoTask], called := s.called + 1));
  }

  lemma {:induction false} TwoCallbacks(run: seq<State>, k: nat) returns (run': seq<State>)
    requires IsRun(run) && k < |run| && Unbroken(run, k)
    requires run[|run| - 1].called + Pending(run[|run| - 1].tasks) >= 2
    ensures IsRun(run') && run <= run' && Unbroken(run', k) && run'[|run'| - 1].called >= 2
    decreases Pending(run[|run| - 1].tasks)
  {
    run' := run;
    if run[|run| - 1].called < 2 {
      run' := OneCallback(run, k);
      run' := TwoCallbacks(run', k);
    }
  }

  /** The callbacks made since ACKSYNC was last cleared, those that are due, and one more while the gate is open. */
  function Limit(s: State): nat {
    s.called + Pending(s.tasks) + if Open(s) then 1 else 0
  }

  lemma {:induction false} OwnerLimit(s: State, s': State)
    requires OwnerStep(s, s') && !Clears(s, s')
    ensures Limit(s') == Limit(s)
  {
  }

  lemma {:induction false} TaskLimit(s: State, t: nat, b: Task, s': State)
    requires t < |s.tasks| && TaskStep(s, t, b, s')
    ensures Limit(s') <= Limit(s)
  {
    PendingUpdate(s.tasks, t, b);
  }

  lemma {:induction false} LimitStep(s: State, s': State)
    requires Next(s, s') && !Clears(s, s')
    ensures Limit(s') <= Limit(s)
  {
    if OwnerStep(s, s') {
      OwnerLimit(s, s');
    } else {
      var t, b :| 0 <= t < |s.tasks| && TaskStep(s, t, b, s');
      TaskLimit(s, t, b, s');
    }
  }

  lemma {:induction false} LimitStays(run: seq<State>, k: nat, i: nat)
    requires IsRun(run) && k <= i < |run| && Unbroken(run, k)
    ensures run[i].called <= Limit(run[i]) <= Limit(run[k])
  {
    if k < i {
      LimitStays(run, k, i - 1);
      assert Next(run[i - 1], run[i - 1 + 1]) && !Clears(run[i - 1], run[i - 1 + 1]);
      LimitStep(run[i - 1], run[i]);
    }
  }

  /** However a run goes on, at most one callback is made until ACKSYNC is cleared again. */
  ghost predicate OneOnly(run: seq<State>) {
    forall run': seq<State> :: IsRun(run') && run <= run' && |run| > 0 && Unbroken(run', |run| - 1) ==> run'[|run'| - 1].called <= 1
  }

  /**
   In every state, and so after every clear: only one callback is made until the next clear if and only if those made,
   those still due from tasks let through earlier, and the one that an open gate lets through are not more than one.
   */
  lemma {:induction false} OneOnlyIff(run: seq<State>, u: nat)
    requires IsRun(run)
    requires var s := run[|run| - 1]; Open(s) ==> u < |s.tasks| && s.tasks[u] == NoTask
    ensures OneOnly(run) <==> Limit(run[|run| - 1]) <= 1
  {
    var k := |run| - 1;
    if Limit(run[k]) <= 1 {
      forall run': seq<State> | IsRun(run') && run <= run' && Unbroken(run', k) ensures run'[|run'| - 1].called <= 1 {
        LimitStays(run', k, |run'| - 1);
      }
    } else {
      var run' := run;
      if Open(run[k]) { run' := OneMoreReply(run, run[k], u); }
      run' := TwoCallbacks(run', k);
    }
  }

  /** The owner times out, uses up a refresh, clears the flag and waits again. */
  lemma {:induction false} Retries(run: seq<State>, s: State) returns (run': seq<State>)
    requires IsRun(run) && run[|run| - 1] == s && s.owner == Waiting && s.refreshes > 0
    ensures IsRun(run')
    ensures run'[|run'| - 1] == Cleared(s, false).(owner := Waiting, sends := s.sends + 1, refreshes := s.refreshes - 1)
  {
    var s1 := s.(owner := Loading);
    var s2 := s.(owner := Storing(s.refreshes));
    var s3 := s.(owner := Retrying, refreshes := s.refreshes - 1);
    var s4 := s3.(owner := Clearing);
    var s5 := Cleared(s4, false).(owner := Sending);
    run' := OwnerMoves(run, s, s1);
    run' := OwnerMoves(run', s1, s2);
    run' := OwnerMoves(run', s2, s3);
    run' := OwnerMoves(run', s3, s4);
    run' := OwnerMoves(run', s4, s5);
    run' := OwnerMoves(run', s5, s5.(owner := Waiting, sends := s5.sends + 1));
  }

  /** The owner has sent its request and waits. */
  function FirstWait(tasks: seq<Task>): State {
    State(false, false, 2, Waiting, tasks, 1, 0, 0, 0, true)
  }

  lemma {:induction false} FirstWaitReachable(tasks: seq<Task>) returns (run: seq<State>)
    requires forall t :: 0 <= t < |tasks| ==> tasks[t] == NoTask
    ensures IsRun(run) && run[|run| - 1] == FirstWait(tasks)
  {
    var s := State(false, false, 2, Free, tasks, 0, 0, 0, 0, true);
    run := [s];
    run := OwnerMoves(run, s, s.(owner := Sending));
    run := OwnerMoves(run, s.(owner := Sending), FirstWait(tasks));
  }

  /** A reply is let through and the owner times out before the callback. */
  lemma {:induction false} LateReachable() returns (run: seq<State>)
    ensures IsRun(run)
    ensures run[|run| - 1] == State(false, false, 1, Waiting, [Callback, NoTask], 2, 0, 0, 1, true)
  {
    var s2 := FirstWait([NoTask, NoTask]);
    var s3 := s2.(tasks := [ReplyGate, NoTask]);
    var s4 := s3.(tasks := [Accepted, NoTask], ack := true, admitted := 1);
    var s5 := s4.(tasks := [Callback, NoTask]);
    TaskMoves(s2, 0, ReplyGate, s3);
    TaskMoves(s3, 0, Accepted, s4);
    TaskMoves(s4, 0, Callback, s5);
    run := FirstWaitReachable([NoTask, NoTask]);
    run := Extend(run, s2, s3);
    run := Extend(run, s3, s4);
    run := Extend(run, s4, s5);
    assert Pending([Callback, NoTask]) == 1 + Pending([Callback, NoTask][1..]) == 1 + Pending([NoTask]) == 1;
    run := Retries(run, s5);
  }

  /** The third send is reached. */
  lemma {:induction false} ThirdSendReachable() returns (run: seq<State>)
    ensures IsRun(run) && run[|run| - 1].sends == 3
  {
    run := FirstWaitReachable([]);
    run := Retries(run, run[|run| - 1]);
    run := Retries(run, run[|run| - 1]);
  }
}
