/**
 The life of the service process behind one struct rpc (src/rpc.c): rpc_init
 forks it, rpc_shutdown reaps it, and either may go wrong half way.
 */
module RpcLifecycle {
  import opened CStrings

  type Pid = nat

  /** The record, and the children of this process that have not been reaped; no process has pid 0. */
  datatype State = State(initialized: bool, pid: int, children: set<Pid>)

  /** What the kernel answers during reap_process. */
  datatype Reaping = Reaping(exited: bool, poll: int, killed: bool, waited: bool)

  /** What it answers during rpc_init; `forked` is the pid of the new child. */
  datatype Starting = Starting(sockets: bool, forked: Option<Pid>, client: bool, reaping: Reaping)

  datatype Call = Init(answers: Starting) | Shutdown(reaping: Reaping)

  /** reap_process: whether it succeeds.  A wait can only succeed on a child that has not been reaped yet. */
  predicate Reaps(children: set<Pid>, pid: int, a: Reaping) {
    pid in children
    && (a.exited || (a.poll >= 0 && (a.poll == 0 ==> a.killed) && a.waited))
  }

  function AfterReap(children: set<Pid>, pid: int, a: Reaping): set<Pid> {
    if Reaps(children, pid, a) then children - {pid} else children
  }

  /** fork gives a pid no unreaped child has. */
  predicate FreshPid(s: State, a: Starting) {
    a.forked.Some? ==> a.forked.value > 0 && a.forked.value !in s.children
  }

  /** The child rpc_init got going, if any. */
  function Started(a: Starting): Option<Pid> {
    if a.sockets then a.forked else None
  }

  function AfterInit(s: State, a: Starting): State {
    if s.initialized then s
    else match Started(a)
      case None => State(false, -1, s.children)
      case Some(p) =>
        var children := s.children + {p};
        if a.client then State(true, p, children) else State(false, p, AfterReap(children, p, a.reaping))
  }

  predicate InitSucceeds(s: State, a: Starting) {
    s.initialized || (Started(a).Some? && a.client)
  }

  predicate ShutdownSucceeds(s: State, a: Reaping) {
    s.pid > 0 ==> Reaps(s.children, s.pid, a)
  }

  function AfterShutdown(s: State, a: Reaping): State {
    if ShutdownSucceeds(s, a) then State(false, -1, if s.pid > 0 then s.children - {s.pid} else s.children) else s
  }

  function After(s: State, c: Call): State {
    match c
    case Init(a) => AfterInit(s, a)
    case Shutdown(a) => AfterShutdown(s, a)
  }

  class Rpc {
    var initialized: bool
    var pid: int
    var children: set<Pid>

    ghost function Abs(): State reads this { State(initialized, pid, children) }

    constructor ()
      ensures Abs() == State(false, 0, {})
    {
      initialized, pid, children := false, 0, {};
    }

    /** reap_process */
    method ReapProcess(force: bool, a: Reaping) returns (ok: bool)
      modifies this`children
      ensures ok <==> Reaps(old(children), pid, a)
      ensures children == AfterReap(old(children), pid, a)
    {
      ok := pid in children && a.exited;          // waitpid(WNOHANG)
      if !ok {
        if a.poll < 0 {
          return false;
        }
        if a.poll == 0 && !a.killed {
          return false;
        }
        ok := pid in children && a.waited;        // waitpid
      }
      if ok { children := children - {pid}; }
    }

    /** rpc_init */
    method Init(a: Starting) returns (ok: bool)
      requires FreshPid(Abs(), a)
      modifies this
      ensures ok <==> InitSucceeds(old(Abs()), a)
      ensures Abs() == AfterInit(old(Abs()), a)
    {
      if initialized {
        return true;
      }
      pid := -1;
      if a.sockets && a.forked.Some? {
        pid := a.forked.value;
        children := children + {a.forked.value};
        if a.client {
          initialized := true;
          return true;
        }
      }
      if pid > 0 {
        var _ := ReapProcess(true, a.reaping);
      }
      return false;
    }

    /** rpc_shutdown */
    method Shutdown(force: bool, a: Reaping) returns (ok: bool)
      modifies this
      ensures ok <==> ShutdownSucceeds(old(Abs()), a)
      ensures Abs() == AfterShutdown(old(Abs()), a)
    {
      if pid > 0 {
        ok := ReapProcess(force, a);
        if !ok {
          return;
        }
      }
      initialized, pid := false, -1;
      return true;
    }
  }

  // ---------------------------------------------------------------------
  // What each answer of the kernel leads to
  // ---------------------------------------------------------------------

  /**
   reap_process on its own child: one that has exited is reaped at once; one that
   hangs up, or is killed after the timeout, is reaped by the second wait; a failing
   poll, kill or wait fails.  A process that is no child is never reaped.
   */
  lemma ReapingByAnswers(children: set<Pid>, pid: Pid, a: Reaping)
    ensures pid in children && a.exited ==> Reaps(children, pid, a)
    ensures pid in children && !a.exited && a.poll > 0 && a.waited ==> Reaps(children, pid, a)
    ensures pid in children && !a.exited && a.poll == 0 && a.killed && a.waited ==> Reaps(children, pid, a)
    ensures !a.exited && a.poll < 0 ==> !Reaps(children, pid, a)
    ensures !a.exited && a.poll == 0 && !a.killed ==> !Reaps(children, pid, a)
    ensures !a.exited && !a.waited ==> !Reaps(children, pid, a)
    ensures pid !in children ==> !Reaps(children, pid, a)
    ensures Reaps(children, pid, a) ==> pid in children && AfterReap(children, pid, a) == children - {pid}
    ensures !Reaps(children, pid, a) ==> AfterReap(children, pid, a) == children
  {
  }

  /** rpc_init returns 0 exactly if the record is in use afterwards; a child is started exactly by a fork behind a socket pair. */
  lemma InitByAnswers(s: State, a: Starting)
    requires FreshPid(s, a)
    ensures InitSucceeds(s, a) <==> AfterInit(s, a).initialized
    ensures s.initialized ==> AfterInit(s, a) == s
    ensures !s.initialized && a.sockets && a.forked.Some? && a.client ==>
              AfterInit(s, a) == State(true, a.forked.value, s.children + {a.forked.value})
    ensures !s.initialized && (!a.sockets || a.forked.None?) ==> AfterInit(s, a) == State(false, -1, s.children)
    ensures !s.initialized && a.sockets && a.forked.Some? && !a.client ==>
              && !InitSucceeds(s, a)
              && AfterInit(s, a).children == if Reaps(s.children + {a.forked.value}, a.forked.value, a.reaping)
                                             then s.children else s.children + {a.forked.value}
  {
  }

  /** rpc_shutdown returns 0 exactly if it resets the record; otherwise it changes nothing. */
  lemma ShutdownByAnswers(s: State, a: Reaping)
    requires Good(s) && s.initialized
    ensures ShutdownSucceeds(s, a) <==> Reaps(s.children, s.pid, a)
    ensures ShutdownSucceeds(s, a) ==> AfterShutdown(s, a) == State(false, -1, {})
    ensures !ShutdownSucceeds(s, a) ==> AfterShutdown(s, a) == s
  {
  }

  /** A service that closes its socket in time is shut down. */
  lemma HangUpShutsDown(pid: Pid, killed: bool)
    requires pid > 0
    ensures ShutdownSucceeds(State(true, pid, {pid}), Reaping(false, 1, killed, true))
    ensures AfterShutdown(State(true, pid, {pid}), Reaping(false, 1, killed, true)) == State(false, -1, {})
  {
  }

  // ---------------------------------------------------------------------
  // Runs
  // ---------------------------------------------------------------------

  /** While the record is in use exactly its own child is unreaped; otherwise none is. */
  ghost predicate Good(s: State) {
    if s.initialized then s.pid > 0 && s.children == {s.pid as nat} else s.children == {}
  }

  /** A failing rpc_init manages to reap the child it had started. */
  ghost predicate CleansUp(s: State, c: Call) {
    c.Init? && !s.initialized && Started(c.answers).Some? && !c.answers.client ==>
      Reaps(s.children + {Started(c.answers).value}, Started(c.answers).value, c.answers.reaping)
  }

  function RunFrom(s: State, calls: seq<Call>): State {
    if calls == [] then s else After(RunFrom(s, calls[..|calls| - 1]), calls[|calls| - 1])
  }

  function RunOf(calls: seq<Call>): State { RunFrom(State(false, 0, {}), calls) }

  /** The kernel's answers fit the state they are given in. */
  ghost predicate Possible(calls: seq<Call>) {
    forall i :: 0 <= i < |calls| && calls[i].Init? ==> FreshPid(RunOf(calls[..i]), calls[i].answers)
  }

  /** Every failing rpc_init of the run cleans up. */
  ghost predicate Tidy(calls: seq<Call>) {
    forall i :: 0 <= i < |calls| ==> CleansUp(RunOf(calls[..i]), calls[i])
  }

  /** From a good state the next one is good exactly if the call cleans up. */
  lemma GoodStep(s: State, c: Call)
    requires Good(s) && (c.Init? ==> FreshPid(s, c.answers))
    ensures Good(After(s, c)) <==> CleansUp(s, c)
  {
  }

  /** Over every tidy run exactly the record's child is unreaped while the record is in use, and none otherwise. */
  lemma {:induction false} AtMostOneChild(calls: seq<Call>)
    requires Possible(calls) && Tidy(calls)
    ensures Good(RunOf(calls))
    ensures |RunOf(calls).children| == if RunOf(calls).initialized then 1 else 0
  {
    if calls != [] {
      var init, last := calls[..|calls| - 1], calls[|calls| - 1];
      assert forall i :: 0 <= i < |init| ==> init[..i] == calls[..i];
      assert calls[|calls| - 1] == last;
      AtMostOneChild(init);
      GoodStep(RunOf(init), last);
    }
  }

  /** rpc_shutdown returning 0 at the end of a tidy run means no child is left. */
  lemma ShutdownLeavesNone(calls: seq<Call>, a: Reaping)
    requires Possible(calls) && Tidy(calls) && ShutdownSucceeds(RunOf(calls), a)
    ensures AfterShutdown(RunOf(calls), a).children == {}
  {
    AtMostOneChild(calls);
  }

  /** Exactly when a call lets a second unreaped child appear next to one already there. */
  lemma SecondChildExactly(s: State, a: Starting)
    requires FreshPid(s, a) && |s.children| == 1
    ensures |AfterInit(s, a).children| == 2 <==>
              !s.initialized && Started(a).Some? && (a.client || !Reaps(s.children + {Started(a).value}, Started(a).value, a.reaping))
  {
  }

  /** An untidy rpc_init followed by another one: two children, and the record knows only the second. */
  lemma LeakExample()
    ensures var bad := Starting(true, Some(7), false, Reaping(false, -1, false, false));
            var fine := Starting(true, Some(8), true, Reaping(false, -1, false, false));
            var s := RunOf([Init(bad), Init(fine)]);
            s == State(true, 8, {7, 8}) && Possible([Init(bad), Init(fine)]) && !Tidy([Init(bad), Init(fine)])
  {
    var bad := Starting(true, Some(7), false, Reaping(false, -1, false, false));
    var fine := Starting(true, Some(8), true, Reaping(false, -1, false, false));
    var calls := [Init(bad), Init(fine)];
    assert calls[..1] == [Init(bad)] && calls[..1][..0] == [] && calls[..0] == [];
    assert RunOf(calls[..0]) == State(false, 0, {});
    assert RunOf(calls[..1]) == After(State(false, 0, {}), Init(bad)) == State(false, 7, {7});
    assert RunOf(calls) == After(RunOf(calls[..1]), Init(fine));
    assert !CleansUp(RunOf(calls[..0]), calls[0]);
  }

  /** rpc_init had to fork, failed afterwards, and reaped its child: the record is left naming a dead process. */
  ghost predicate LeavesStalePid(s: State, a: Starting) {
    !s.initialized && Started(a).Some? && !a.client && CleansUp(s, Init(a))
  }

  /** After rpc_init some answer of the kernel lets rpc_shutdown succeed, exactly if no stale pid was left. */
  lemma ShutdownCanSucceedExactly(s: State, a: Starting)
    requires Good(s) && FreshPid(s, a)
    ensures (exists r :: ShutdownSucceeds(AfterInit(s, a), r)) <==> !LeavesStalePid(s, a)
  {
    var willing := Reaping(true, 0, true, true);
    if !LeavesStalePid(s, a) {
      assert ShutdownSucceeds(AfterInit(s, a), willing);
    }
  }

  /** A stale pid lasts: no rpc_shutdown succeeds or changes anything until another rpc_init. */
  lemma {:induction false} StalePidLasts(s: State, a: Starting, calls: seq<Call>)
    requires Good(s) && FreshPid(s, a) && LeavesStalePid(s, a)
    requires forall i :: 0 <= i < |calls| ==> calls[i].Shutdown?
    ensures RunFrom(AfterInit(s, a), calls) == AfterInit(s, a)
    ensures forall r :: !ShutdownSucceeds(AfterInit(s, a), r)
    decreases |calls|
  {
    ShutdownCanSucceedExactly(s, a);
    if calls != [] { StalePidLasts(s, a, calls[..|calls| - 1]); }
  }
}
