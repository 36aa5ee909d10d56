/** The IP block table with expiry tasks (crates/netblock/src/ip_policy.rs).

    Batches of policies, sleeping timers, lock waits and aborts interleave freely. The
    module gives the table updates, the step system over them, and what every run
    keeps. */
module NetBlock {

  type Ip = string
  type TaskId = nat
  type BatchId = nat

  /** A duration of zero means permanent. */
  datatype Policy = Policy(direction: nat, ip: Ip, duration: nat, isIpv6: bool)

  /** Where an expiry task is: its timer runs; its timer fired and it is being polled; it
      is parked on the policy lock; it holds the policy lock; it holds both locks. */
  datatype Phase = Sleeping | Awake | Parked | HasPolicies | HasBoth

  /** `cancelled` records an abort that has not taken effect yet: the runtime drops a
      cancelled task only when it is not being polled. */
  datatype Task = Task(ip: Ip, deadline: nat, phase: Phase, cancelled: bool)

  /** The two shared maps and the tasks behind the handles. */
  datatype Tables = Tables(policies: map<Ip, Policy>, tasks: map<Ip, TaskId>, live: map<TaskId, Task>, nextTask: TaskId)

  // ---------------------------------------------------------------- one policy of a batch

  /** Aborting a handle. A task that is asleep or parked is dropped at once; one that is
      being polled is only marked. */
  function Abort(live: map<TaskId, Task>, id: TaskId): map<TaskId, Task> {
    if id in live && live[id].phase == Awake then live[id := live[id].(cancelled := true)]
    else live - {id}
  }

  function Item(t: Tables, p: Policy, now: nat): Tables {
    var t' :=
      if p.duration == 0 && p.ip in t.tasks then
        t.(tasks := t.tasks - {p.ip}, live := Abort(t.live, t.tasks[p.ip]))
      else if p.duration > 0 && p.ip !in t.tasks then
        t.(tasks := t.tasks[p.ip := t.nextTask],
           live := t.live[t.nextTask := Task(p.ip, now + p.duration, Sleeping, false)],
           nextTask := t.nextTask + 1)
      else t;
    t'.(policies := t'.policies[p.ip := p])
  }

  function Items(t: Tables, ps: seq<Policy>, now: nat): Tables
    decreases |ps|
  {
    if ps == [] then t else Items(Item(t, ps[0], now), ps[1..], now)
  }

  /** Policy i is the last of its batch for its address. */
  ghost predicate LastFor(ps: seq<Policy>, i: nat)
    requires i < |ps|
  {
    forall j :: i < j < |ps| ==> ps[j].ip != ps[i].ip
  }

  function Ips(ps: seq<Policy>): set<Ip> {
    set p | p in ps :: p.ip
  }

  lemma ItemEnters(t: Tables, p: Policy, now: nat)
    ensures Item(t, p, now).policies == t.policies[p.ip := p]
  {
  }

  lemma {:induction false} BatchKeys(t: Tables, ps: seq<Policy>, now: nat)
    ensures Items(t, ps, now).policies.Keys == t.policies.Keys + Ips(ps)
    decreases |ps|
  {
    if ps != [] {
      hide Item;
      ItemEnters(t, ps[0], now);
      BatchKeys(Item(t, ps[0], now), ps[1..], now);
      assert ps == [ps[0]] + ps[1..];
      assert Ips(ps) == {ps[0].ip} + Ips(ps[1..]);
    }
  }

  lemma {:induction false} BatchSpares(t: Tables, ps: seq<Policy>, now: nat, ip: Ip)
    requires ip in t.policies && forall p :: p in ps ==> p.ip != ip
    ensures ip in Items(t, ps, now).policies && Items(t, ps, now).policies[ip] == t.policies[ip]
    decreases |ps|
  {
    if ps != [] {
      hide Item;
      ItemEnters(t, ps[0], now);
      BatchSpares(Item(t, ps[0], now), ps[1..], now, ip);
    }
  }

  lemma {:induction false} BatchEntersLast(t: Tables, ps: seq<Policy>, now: nat, i: nat)
    requires i < |ps| && LastFor(ps, i)
    ensures var m := Items(t, ps, now).policies; ps[i].ip in m && m[ps[i].ip] == ps[i]
    decreases |ps|
  {
    hide Item;
    ItemEnters(t, ps[0], now);
    var t', rest := Item(t, ps[0], now), ps[1..];
    assert forall j :: 0 <= j < |rest| ==> rest[j] == ps[j + 1];
    if i == 0 {
      BatchSpares(t', rest, now, ps[0].ip);
    } else {
      assert LastFor(rest, i - 1);
      BatchEntersLast(t', rest, now, i - 1);
    }
  }

  /** After a batch the table has, for every address it names, the last policy for it, and for
      every other address what it had before. */
  lemma BatchEnters(t: Tables, ps: seq<Policy>, now: nat)
    ensures var m := Items(t, ps, now).policies;
            && m.Keys == t.policies.Keys + Ips(ps)
            && (forall i :: 0 <= i < |ps| && LastFor(ps, i) ==> ps[i].ip in m && m[ps[i].ip] == ps[i])
            && (forall ip :: ip in t.policies && ip !in Ips(ps) ==> m[ip] == t.policies[ip])
  {
    hide Items, LastFor;
    BatchKeys(t, ps, now);
    forall i | 0 <= i < |ps| && LastFor(ps, i)
      ensures var m := Items(t, ps, now).policies; ps[i].ip in m && m[ps[i].ip] == ps[i]
    {
      BatchEntersLast(t, ps, now, i);
    }
    forall ip | ip in t.policies && ip !in Ips(ps)
      ensures ip in Items(t, ps, now).policies && Items(t, ps, now).policies[ip] == t.policies[ip]
    {
      BatchSpares(t, ps, now, ip);
    }
  }

  // ---------------------------------------------------------------- the kernel files

  datatype Kernel = Kernel(v4: set<Ip>, v6: set<Ip>)

  function V4(m: map<Ip, Policy>): set<Ip> { set k | k in m && !m[k].isIpv6 :: m[k].ip }
  function V6(m: map<Ip, Policy>): set<Ip> { set k | k in m && m[k].isIpv6 :: m[k].ip }

  /** The files that mirror a policy map. */
  function Mirror(m: map<Ip, Policy>): Kernel {
    Kernel(V4(m), V6(m))
  }

  /** If every policy is filed under its own address, the files hold exactly the addresses of
      their family. */
  lemma MirrorMeans(m: map<Ip, Policy>, ip: Ip)
    requires forall k :: k in m ==> m[k].ip == k
    ensures ip in Mirror(m).v4 <==> ip in m && !m[ip].isIpv6
    ensures ip in Mirror(m).v6 <==> ip in m && m[ip].isIpv6
  {
  }

  /** What a rewrite of both files can leave behind: everything on success; on failure
      the point at which it stopped. */
  ghost predicate WriteAllows(m: map<Ip, Policy>, k: Kernel, k': Kernel, ok: bool) {
    if ok then k' == Mirror(m)
    else
      || k' == k
      || (k'.v4 <= V4(m) && k'.v6 == k.v6)
      || (k'.v4 == V4(m) && k'.v6 <= V6(m))
  }

  /** Rewriting one file: clear it, then one line per address. */
  method WriteFile(lines: seq<Policy>, before: set<Ip>, fails: nat -> bool, first: nat)
    returns (after: set<Ip>, ok: bool, next: nat)
    ensures ok <==> forall n :: first <= n < first + 2 + |lines| ==> !fails(n)
    ensures ok ==> next == first + 2 + |lines| && after == set p | p in lines :: p.ip
    ensures !ok ==> exists n :: first <= n < first + 2 + |lines| && fails(n) && (forall i :: first <= i < n ==> !fails(i)) &&
                                after == if n < first + 2 then before else set p | p in lines[..n - first - 2] :: p.ip
    ensures after == before || after <= set p | p in lines :: p.ip
  {
    after, ok, next := before, false, first;
    if fails(next) {  // open
      return;
    }
    if fails(next + 1) {  // clear
      return;
    }
    after := {};
    next := next + 2;
    for i := 0 to |lines|
      invariant after == set p | p in lines[..i] :: p.ip
      invariant next == first + 2 + i && forall n :: first <= n < next ==> !fails(n)
    {
      assert forall p :: p in lines[..i] ==> p in lines;
      if fails(next) {
        return;
      }
      assert lines[..i + 1] == lines[..i] + [lines[i]];
      after := after + {lines[i].ip};
      next := next + 1;
    }
    assert lines[..|lines|] == lines;
    ok := true;
  }

  /** The rewrite of both files, with any of its operations failing. */
  method WritePoliciesToProc(m: map<Ip, Policy>, k: Kernel, fails: nat -> bool) returns (k': Kernel, ok: bool)
    ensures WriteAllows(m, k, k', ok)
    ensures ok <==> forall n :: 0 <= n < 4 + |m| ==> !fails(n)
  {
    var ipv4: seq<Policy>, ipv6: seq<Policy> := [], [];
    var todo := m.Keys;
    while todo != {}
      invariant todo <= m.Keys && |ipv4| + |ipv6| + |todo| == |m|
      invariant forall p :: p in ipv4 <==> exists key :: key in m.Keys - todo && !m[key].isIpv6 && m[key] == p
      invariant forall p :: p in ipv6 <==> exists key :: key in m.Keys - todo && m[key].isIpv6 && m[key] == p
      decreases todo
    {
      var key :| key in todo;
      var p := m[key];
      ghost var done := m.Keys - todo;
      todo := todo - {key};
      assert m.Keys - todo == done + {key};
      if p.isIpv6 {
        ipv6 := ipv6 + [p];
      } else {
        ipv4 := ipv4 + [p];
      }
    }
    assert m.Keys - {} == m.Keys;
    assert (set p | p in ipv4 :: p.ip) == V4(m);
    assert (set p | p in ipv6 :: p.ip) == V6(m);
    var v4, ok4, next := WriteFile(ipv4, k.v4, fails, 0);
    if !ok4 {
      return Kernel(v4, k.v6), false;
    }
    var v6, ok6, _ := WriteFile(ipv6, k.v6, fails, next);
    return Kernel(v4, v6), ok6;
  }

  /** The shared tables as the source holds them, with the body of the update that runs
      while both locks are held. */
  class BlockTable {
    var policies: map<Ip, Policy>
    var tasks: map<Ip, TaskId>
    var live: map<TaskId, Task>
    var nextTask: TaskId
    var kernel: Kernel

    ghost function View(): Tables reads this {
      Tables(policies, tasks, live, nextTask)
    }

    /** The loop body: one policy of a batch. */
    method Take(policy: Policy, now: nat)
      modifies this
      ensures View() == Item(old(View()), policy, now) && kernel == old(kernel)
    {
      var ip := policy.ip;
      var hasTask := ip in tasks;
      if policy.duration == 0 && hasTask {
        var task := tasks[ip];
        tasks := tasks - {ip};
        live := Abort(live, task);
      } else if policy.duration > 0 && !hasTask {
        live := live[nextTask := Task(ip, now + policy.duration, Sleeping, false)];
        tasks := tasks[ip := nextTask];
        nextTask := nextTask + 1;
      }
      policies := policies[ip := policy];
    }

    method UpdateAndWritePolicies(batch: seq<Policy>, now: nat, fails: nat -> bool) returns (ok: bool)
      modifies this
      ensures View() == Items(old(View()), batch, now)
      ensures policies.Keys == old(policies).Keys + Ips(batch)
      ensures forall i :: 0 <= i < |batch| && LastFor(batch, i) ==> policies[batch[i].ip] == batch[i]
      ensures forall ip :: ip in old(policies) && ip !in Ips(batch) ==> policies[ip] == old(policies)[ip]
      ensures WriteAllows(policies, old(kernel), kernel, ok)
      ensures ok <==> forall n :: 0 <= n < 4 + |policies| ==> !fails(n)
    {
      hide Item, WriteAllows, LastFor, Ips;
      BatchEnters(View(), batch, now);
      assert batch[0..] == batch;
      for i := 0 to |batch|
        invariant Items(View(), batch[i..], now) == Items(old(View()), batch, now)
        invariant kernel == old(kernel)
      {
        assert batch[i..][0] == batch[i] && batch[i..][1..] == batch[i + 1..];
        Take(batch[i], now);
      }
      kernel, ok := WritePoliciesToProc(policies, kernel, fails);
    }
  }

  // ---------------------------------------------------------------- the step system

  datatype Owner = Nobody | ByBatch(b: BatchId) | ByTask(t: TaskId)

  /** A call in progress: waiting for the policy lock, waiting for the task lock while
      holding the policy lock, or working through the rest of its policies. */
  datatype Stage = WantPolicies | WantTasks | Working
  datatype Batch = Batch(todo: seq<Policy>, stage: Stage)

  datatype State = State(
    t: Tables,
    batches: map<BatchId, Batch>,
    policyLock: Owner,
    taskLock: Owner,
    clock: nat,
    kernel: Kernel,
    written: bool)  // the most recent rewrite of the files succeeded

  const INIT: State := State(Tables(map[], map[], map[], 0), map[], Nobody, Nobody, 0, Kernel({}, {}), true)

  datatype Label =
    | Call(b: BatchId, ps: seq<Policy>)
    | BatchTakesPolicies(b: BatchId)
    | BatchTakesTasks(b: BatchId)
    | BatchItem(b: BatchId)
    | BatchEnds(b: BatchId, k: Kernel, ok: bool)
    | Tick
    | Fire(id: TaskId)
    | Poll(id: TaskId)
    | Grant(id: TaskId)
    | TaskTakesTasks(id: TaskId)
    | TaskEnds(id: TaskId, k: Kernel, ok: bool)

  ghost predicate Enabled(s: State, l: Label) {
    match l
    case Call(b, ps) => b !in s.batches
    case BatchTakesPolicies(b) => b in s.batches && s.batches[b].stage == WantPolicies && s.policyLock == Nobody
    case BatchTakesTasks(b) => b in s.batches && s.batches[b].stage == WantTasks && s.taskLock == Nobody
    case BatchItem(b) => b in s.batches && s.batches[b].stage == Working && s.batches[b].todo != []
    case BatchEnds(b, k, ok) =>
      b in s.batches && s.batches[b].stage == Working && s.batches[b].todo == [] && WriteAllows(s.t.policies, s.kernel, k, ok)
    case Tick => true
    case Fire(id) => id in s.t.live && s.t.live[id].phase == Sleeping && s.t.live[id].deadline <= s.clock
    case Poll(id) => id in s.t.live && s.t.live[id].phase == Awake
    case Grant(id) => id in s.t.live && s.t.live[id].phase == Parked && s.policyLock == Nobody
    case TaskTakesTasks(id) => id in s.t.live && s.t.live[id].phase == HasPolicies && s.taskLock == Nobody
    case TaskEnds(id, k, ok) =>
      id in s.t.live && s.t.live[id].phase == HasBoth && WriteAllows(s.t.policies, s.kernel, k, ok)
  }

  function SetPhase(t: Tables, id: TaskId, phase: Phase): Tables
    requires id in t.live
  {
    t.(live := t.live[id := t.live[id].(phase := phase)])
  }

  /** A task gets the policy lock and removes its address from the table at once. */
  function Locked(s: State, id: TaskId): State
    requires id in s.t.live
  {
    var t := SetPhase(s.t, id, HasPolicies);
    s.(t := t.(policies := t.policies - {t.live[id].ip}), policyLock := ByTask(id))
  }

  ghost function Next(s: State, l: Label): State
    requires Enabled(s, l)
  {
    match l
    case Call(b, ps) => s.(batches := s.batches[b := Batch(ps, WantPolicies)])
    case BatchTakesPolicies(b) => s.(batches := s.batches[b := s.batches[b].(stage := WantTasks)], policyLock := ByBatch(b))
    case BatchTakesTasks(b) => s.(batches := s.batches[b := s.batches[b].(stage := Working)], taskLock := ByBatch(b))
    case BatchItem(b) =>
      var todo := s.batches[b].todo;
      s.(t := Item(s.t, todo[0], s.clock), batches := s.batches[b := Batch(todo[1..], Working)])
    case BatchEnds(b, k, ok) =>
      s.(batches := s.batches - {b}, policyLock := Nobody, taskLock := Nobody, kernel := k, written := ok)
    case Tick => s.(clock := s.clock + 1)
    case Fire(id) => s.(t := SetPhase(s.t, id, Awake))
    case Poll(id) =>
      if s.policyLock == Nobody then Locked(s, id)
      else if s.t.live[id].cancelled then s.(t := s.t.(live := s.t.live - {id}))
      else s.(t := SetPhase(s.t, id, Parked))
    case Grant(id) => Locked(s, id)
    case TaskTakesTasks(id) =>
      var t := SetPhase(s.t, id, HasBoth);
      s.(t := t.(tasks := t.tasks - {t.live[id].ip}), taskLock := ByTask(id))
    case TaskEnds(id, k, ok) =>
      s.(t := s.t.(live := s.t.live - {id}), policyLock := Nobody, taskLock := Nobody, kernel := k, written := ok)
  }

  ghost predicate IsRun(s: State, ls: seq<Label>)
    decreases |ls|
  {
    ls == [] || (Enabled(s, ls[0]) && IsRun(Next(s, ls[0]), ls[1..]))
  }

  ghost function After(s: State, ls: seq<Label>): State
    requires IsRun(s, ls)
    decreases |ls|
  {
    if ls == [] then s else After(Next(s, ls[0]), ls[1..])
  }

  /** The steps that work through a batch. */
  function ItemSteps(b: BatchId, n: nat): seq<Label> {
    seq(n, _ => BatchItem(b))
  }

  /** The loop of a batch is as many steps of the step system as it has policies: they can all
      be taken, they leave nothing to do, and the tables are those of the loop. */
  lemma {:induction false} BatchIsItsSteps(s: State, b: BatchId)
    requires b in s.batches && s.batches[b].stage == Working
    ensures var todo := s.batches[b].todo;
            var ls := ItemSteps(b, |todo|);
            && IsRun(s, ls)
            && After(s, ls) == s.(t := Items(s.t, todo, s.clock), batches := s.batches[b := Batch([], Working)])
    decreases |s.batches[b].todo|
  {
    hide Item;
    var todo := s.batches[b].todo;
    var ls := ItemSteps(b, |todo|);
    if todo == [] {
      assert ls == [];
      assert s.batches[b := Batch([], Working)] == s.batches;
    } else {
      assert ls[0] == BatchItem(b) && ls[1..] == ItemSteps(b, |todo| - 1);
      var s' := Next(s, BatchItem(b));
      BatchIsItsSteps(s', b);
      assert s'.batches[b := Batch([], Working)] == s.batches[b := Batch([], Working)];
    }
  }

  // ---------------------------------------------------------------- what every run keeps

  function Timed(m: map<Ip, Policy>): set<Ip> {
    set ip | ip in m && m[ip].duration > 0
  }

  ghost predicate LocksAgree(s: State) {
    && (s.taskLock != Nobody ==> s.taskLock == s.policyLock)
    && (forall b :: b in s.batches ==>
          && (s.batches[b].stage != WantPolicies <==> s.policyLock == ByBatch(b))
          && (s.batches[b].stage == Working <==> s.taskLock == ByBatch(b)))
    && (s.policyLock.ByBatch? ==> s.policyLock.b in s.batches)
    && (forall id :: id in s.t.live ==>
          && (s.t.live[id].phase == HasPolicies || s.t.live[id].phase == HasBoth <==> s.policyLock == ByTask(id))
          && (s.t.live[id].phase == HasBoth <==> s.taskLock == ByTask(id)))
    && (s.policyLock.ByTask? ==> s.policyLock.t in s.t.live)
  }

  /** Every handle in the task map belongs to a live task for that address whose abort was
      not requested, and every task that got past its timer is past its deadline. */
  ghost predicate HandlesAgree(s: State) {
    && (forall ip :: ip in s.t.policies ==> s.t.policies[ip].ip == ip)
    && (forall ip :: ip in s.t.tasks ==>
          && s.t.tasks[ip] in s.t.live && s.t.live[s.t.tasks[ip]].ip == ip
          && !s.t.live[s.t.tasks[ip]].cancelled && s.t.live[s.t.tasks[ip]].phase != HasBoth)
    && (forall id :: id in s.t.live ==>
          && id < s.t.nextTask
          && (s.t.live[id].phase != Sleeping ==> s.t.live[id].deadline <= s.clock)
          && (s.t.live[id].cancelled ==> s.t.live[id].phase != Sleeping && s.t.live[id].phase != Parked))
  }

  /** The address whose removal from the policy map is not yet followed by its removal
      from the task map. */
  function InTransit(s: State): set<Ip> {
    if s.policyLock.ByTask? && s.policyLock.t in s.t.live && s.t.live[s.policyLock.t].phase == HasPolicies
    then {s.t.live[s.policyLock.t].ip} else {}
  }

  ghost predicate KeysAgree(s: State) {
    && s.t.tasks.Keys - InTransit(s) == Timed(s.t.policies)
    && InTransit(s) !! s.t.policies.Keys
  }

  ghost predicate FilesAgree(s: State) {
    s.policyLock == Nobody && s.written ==> s.kernel == Mirror(s.t.policies)
  }

  ghost predicate Inv(s: State) {
    LocksAgree(s) && HandlesAgree(s) && KeysAgree(s) && FilesAgree(s)
  }

  predicate ByBatchCall(l: Label) {
    l.Call? || l.BatchTakesPolicies? || l.BatchTakesTasks? || l.BatchItem? || l.BatchEnds?
  }

  lemma BatchKeepsLocks(s: State, l: Label)
    requires Inv(s) && Enabled(s, l) && ByBatchCall(l)
    ensures LocksAgree(Next(s, l))
  {
  }

  lemma TimerKeepsLocks(s: State, l: Label)
    requires LocksAgree(s) && Enabled(s, l) && (l.Tick? || l.Fire? || l.Poll? || l.Grant?)
    ensures LocksAgree(Next(s, l))
  {
  }

  lemma TaskKeepsLocks(s: State, l: Label)
    requires LocksAgree(s) && Enabled(s, l) && (l.TaskTakesTasks? || l.TaskEnds?)
    ensures LocksAgree(Next(s, l))
  {
  }

  lemma ItemKeepsHandles(s: State, l: Label)
    requires Inv(s) && Enabled(s, l) && l.BatchItem?
    ensures HandlesAgree(Next(s, l))
  {
    var p := s.batches[l.b].todo[0];
    assert p.ip in s.t.tasks ==> s.t.live[s.t.tasks[p.ip]].phase != HasPolicies;
  }

  lemma TimerKeepsHandles(s: State, l: Label)
    requires HandlesAgree(s) && Enabled(s, l) && (l.Tick? || l.Fire? || l.Poll? || l.Grant?)
    ensures HandlesAgree(Next(s, l))
  {
  }

  lemma OtherKeepsHandles(s: State, l: Label)
    requires Inv(s) && Enabled(s, l) && !l.BatchItem? && !(l.Tick? || l.Fire? || l.Poll? || l.Grant?)
    ensures HandlesAgree(Next(s, l))
  {
  }

  lemma ItemKeepsKeys(t: Tables, p: Policy, now: nat)
    requires t.tasks.Keys == Timed(t.policies)
    ensures Item(t, p, now).tasks.Keys == Timed(Item(t, p, now).policies)
  {
  }

  lemma StepKeepsKeys(s: State, l: Label)
    requires Inv(s) && Enabled(s, l)
    ensures KeysAgree(Next(s, l))
  {
    var s' := Next(s, l);
    match l
    case BatchItem(b) =>
      ItemKeepsKeys(s.t, s.batches[b].todo[0], s.clock);
      assert InTransit(s') == {};
    case Poll(id) =>
      if s.policyLock == Nobody {
        LockKeepsKeys(s, id);
      } else {
        assert InTransit(s') == InTransit(s);
      }
    case Grant(id) => LockKeepsKeys(s, id);
    case TaskTakesTasks(id) =>
      assert InTransit(s) == {s.t.live[id].ip} && InTransit(s') == {};
      assert s'.t.tasks.Keys == s.t.tasks.Keys - InTransit(s);
    case _ => assert InTransit(s') == InTransit(s);
  }

  lemma LockKeepsKeys(s: State, id: TaskId)
    requires Inv(s) && id in s.t.live && s.policyLock == Nobody
    ensures KeysAgree(Locked(s, id))
  {
    var ip, s' := s.t.live[id].ip, Locked(s, id);
    assert InTransit(s) == {} && InTransit(s') == {ip};
    assert Timed(s'.t.policies) == Timed(s.t.policies) - {ip};
  }

  lemma StepKeepsFiles(s: State, l: Label)
    requires Inv(s) && Enabled(s, l)
    ensures FilesAgree(Next(s, l))
  {
  }

  lemma StepKeeps(s: State, l: Label)
    requires Inv(s) && Enabled(s, l)
    ensures Inv(Next(s, l))
  {
    hide Next, LocksAgree, HandlesAgree, KeysAgree, FilesAgree;
    if ByBatchCall(l) {
      BatchKeepsLocks(s, l);
      if l.BatchItem? { ItemKeepsHandles(s, l); } else { OtherKeepsHandles(s, l); }
    } else if l.TaskTakesTasks? || l.TaskEnds? {
      TaskKeepsLocks(s, l);
      OtherKeepsHandles(s, l);
    } else {
      TimerKeepsLocks(s, l);
      TimerKeepsHandles(s, l);
    }
    StepKeepsKeys(s, l);
    StepKeepsFiles(s, l);
  }

  lemma {:induction false} RunKeeps(s: State, ls: seq<Label>)
    requires Inv(s) && IsRun(s, ls)
    ensures Inv(After(s, ls))
    decreases |ls|
  {
    hide Next, Enabled, Inv;
    if ls != [] {
      StepKeeps(s, ls[0]);
      RunKeeps(Next(s, ls[0]), ls[1..]);
    }
  }

  lemma InitHolds()
    ensures Inv(INIT)
  {
  }

  /** On every run, whenever the policy lock is free: the task map has exactly the
      addresses with a positive duration, and if the last rewrite succeeded the files hold
      exactly the IPv4 and IPv6 addresses of the table. */
  lemma TablesAgreeOnEveryRun(ls: seq<Label>)
    requires IsRun(INIT, ls) && After(INIT, ls).policyLock == Nobody
    ensures var s := After(INIT, ls);
            && s.t.tasks.Keys == Timed(s.t.policies)
            && (s.written ==> s.kernel == Mirror(s.t.policies))
            && (forall ip :: ip in s.t.tasks ==>
                  s.t.tasks[ip] in s.t.live && s.t.live[s.t.tasks[ip]].ip == ip && !s.t.live[s.t.tasks[ip]].cancelled)
  {
    InitHolds();
    RunKeeps(INIT, ls);
    assert InTransit(After(INIT, ls)) == {};
  }

  /** Whoever holds the policy lock can take its next step: the two locks cannot
      deadlock. */
  lemma HolderCanProceed(s: State) returns (l: Label)
    requires Inv(s) && s.policyLock != Nobody
    ensures Enabled(s, l)
    ensures match s.policyLock
            case Nobody => false
            case ByBatch(b) => ByBatchCall(l) && l.b == b
            case ByTask(id) => (l.TaskTakesTasks? && l.id == id) || (l.TaskEnds? && l.id == id)
  {
    match s.policyLock
    case ByBatch(b) =>
      var batch := s.batches[b];
      if batch.stage == WantTasks {
        l := BatchTakesTasks(b);
      } else if batch.todo != [] {
        l := BatchItem(b);
      } else {
        l := BatchEnds(b, Mirror(s.t.policies), true);
      }
    case ByTask(id) =>
      if s.t.live[id].phase == HasPolicies {
        l := TaskTakesTasks(id);
      } else {
        l := TaskEnds(id, Mirror(s.t.policies), true);
      }
  }

  // ---------------------------------------------------------------- the tasks of one address

  /** The step does not abort the task of this address while it is being polled. */
  ghost predicate Clean(s: State, l: Label, ip: Ip)
    requires Enabled(s, l)
  {
    l.BatchItem? ==>
      var p := s.batches[l.b].todo[0];
      p.ip == ip && p.duration == 0 && ip in s.t.tasks && s.t.tasks[ip] in s.t.live ==> s.t.live[s.t.tasks[ip]].phase != Awake
  }

  ghost predicate CleanRun(s: State, ls: seq<Label>, ip: Ip)
    requires IsRun(s, ls)
    decreases |ls|
  {
    ls == [] || (Clean(s, ls[0], ip) && CleanRun(Next(s, ls[0]), ls[1..], ip))
  }

  /** Every live task for the address is the one its handle refers to, until it has removed
      that handle itself, and its abort was not requested. */
  ghost predicate NoStray(s: State, ip: Ip) {
    forall id :: id in s.t.live && s.t.live[id].ip == ip ==>
      && !s.t.live[id].cancelled
      && (s.t.live[id].phase != HasBoth ==> ip in s.t.tasks && s.t.tasks[ip] == id)
  }

  lemma CleanItemKeeps(s: State, l: Label, ip: Ip)
    requires Inv(s) && NoStray(s, ip) && Enabled(s, l) && Clean(s, l, ip) && l.BatchItem?
    ensures NoStray(Next(s, l), ip)
  {
    hide KeysAgree, FilesAgree;
    var p := s.batches[l.b].todo[0];
    if p.ip != ip {
      OtherItemSpares(s.t, p, s.clock, ip);
    }
  }

  /** A policy for another address leaves the tasks and the handle of this one alone. */
  lemma OtherItemSpares(t: Tables, p: Policy, now: nat, ip: Ip)
    requires p.ip != ip
    requires forall k :: k in t.tasks ==> t.tasks[k] in t.live && t.live[t.tasks[k]].ip == k
    requires forall id :: id in t.live ==> id < t.nextTask
    ensures var t' := Item(t, p, now);
            && (ip in t'.tasks <==> ip in t.tasks) && (ip in t.tasks ==> t'.tasks[ip] == t.tasks[ip])
            && (forall id :: id in t'.live && t'.live[id].ip == ip ==> id in t.live && t'.live[id] == t.live[id])
            && (forall id :: id in t.live && t.live[id].ip == ip ==> id in t'.live && t'.live[id] == t.live[id])
  {
  }

  lemma OtherStepKeeps(s: State, l: Label, ip: Ip)
    requires Inv(s) && NoStray(s, ip) && Enabled(s, l) && !l.BatchItem?
    ensures NoStray(Next(s, l), ip)
  {
    if ByBatchCall(l) || l.Tick? {
      assert Next(s, l).t == s.t;
    } else if l.TaskTakesTasks? || l.TaskEnds? {
      LateTaskStepKeeps(s, l, ip);
    } else {
      EarlyTaskStepKeeps(s, l, ip);
    }
  }

  lemma EarlyTaskStepKeeps(s: State, l: Label, ip: Ip)
    requires NoStray(s, ip) && Enabled(s, l) && (l.Fire? || l.Poll? || l.Grant?)
    ensures NoStray(Next(s, l), ip)
  {
  }

  lemma LateTaskStepKeeps(s: State, l: Label, ip: Ip)
    requires Inv(s) && NoStray(s, ip) && Enabled(s, l) && (l.TaskTakesTasks? || l.TaskEnds?)
    ensures NoStray(Next(s, l), ip)
  {
    hide KeysAgree, FilesAgree;
  }

  /** Exactly the abort of a task in mid-poll creates a stray task. */
  lemma StrayIff(s: State, l: Label, ip: Ip)
    requires Inv(s) && NoStray(s, ip) && Enabled(s, l)
    ensures NoStray(Next(s, l), ip) <==> Clean(s, l, ip)
  {
    hide Inv, NoStray, Enabled, Next;
    if !l.BatchItem? {
      OtherStepKeeps(s, l, ip);
    } else if Clean(s, l, ip) {
      CleanItemKeeps(s, l, ip);
    } else {
      UncleanItem(s, l, ip);
    }
  }

  lemma UncleanItem(s: State, l: Label, ip: Ip)
    requires Inv(s) && Enabled(s, l) && !Clean(s, l, ip)
    ensures !NoStray(Next(s, l), ip)
  {
    hide LocksAgree, KeysAgree, FilesAgree;
    var id := s.t.tasks[ip];
    assert s.t.live[id].ip == ip;
    assert id in Next(s, l).t.live && Next(s, l).t.live[id].cancelled;
  }

  lemma {:induction false} CleanRunKeeps(s: State, ls: seq<Label>, ip: Ip)
    requires Inv(s) && NoStray(s, ip) && IsRun(s, ls) && CleanRun(s, ls, ip)
    ensures Inv(After(s, ls)) && NoStray(After(s, ls), ip)
    decreases |ls|
  {
    hide Next, Enabled, Inv, NoStray, Clean;
    if ls != [] {
      StepKeeps(s, ls[0]);
      StrayIff(s, ls[0], ip);
      CleanRunKeeps(Next(s, ls[0]), ls[1..], ip);
    }
  }

  lemma InitNoStray(ip: Ip)
    ensures NoStray(INIT, ip)
  {
  }

  /** The live tasks of an address. */
  ghost function TasksOf(s: State, ip: Ip): set<TaskId> {
    set id | id in s.t.live && s.t.live[id].ip == ip
  }

  /** If no task of an address was aborted in mid-poll, then whenever the policy lock is free
      it has exactly one live task, not cancelled, if its duration is positive, and none
      otherwise. */
  lemma OneTaskPerTimedAddress(ls: seq<Label>, ip: Ip)
    requires IsRun(INIT, ls) && CleanRun(INIT, ls, ip) && After(INIT, ls).policyLock == Nobody
    ensures var s := After(INIT, ls);
            if ip in Timed(s.t.policies)
            then ip in s.t.tasks && TasksOf(s, ip) == {s.t.tasks[ip]} && !s.t.live[s.t.tasks[ip]].cancelled
            else TasksOf(s, ip) == {}
  {
    InitHolds();
    InitNoStray(ip);
    CleanRunKeeps(INIT, ls, ip);
    TablesAgreeOnEveryRun(ls);
  }

  // ---------------------------------------------------------------- one task per address

  /** The live tasks whose abort was not requested, all of them and those of one address. */
  ghost function Unaborted(s: State): set<TaskId> {
    set id | id in s.t.live && !s.t.live[id].cancelled
  }

  ghost function UnabortedOf(s: State, ip: Ip): set<TaskId> {
    set id | id in s.t.live && !s.t.live[id].cancelled && s.t.live[id].ip == ip
  }

  /** Addresses with a positive duration and un-aborted tasks correspond one to one. */
  ghost predicate OneToOne(s: State) {
    && (forall ip :: ip in Timed(s.t.policies) ==> ip in s.t.tasks && UnabortedOf(s, ip) == {s.t.tasks[ip]})
    && (forall id :: id in Unaborted(s) ==> s.t.live[id].ip in Timed(s.t.policies))
  }

  /** Every un-aborted task for the address is the one its handle refers to, until it has
      removed that handle itself. */
  ghost predicate NoRival(s: State, ip: Ip) {
    forall id :: id in s.t.live && s.t.live[id].ip == ip && !s.t.live[id].cancelled && s.t.live[id].phase != HasBoth ==>
      ip in s.t.tasks && s.t.tasks[ip] == id
  }

  /** A task that expires the address takes away the handle of another one. */
  ghost predicate TakesHandleOfOther(s: State, l: Label, ip: Ip)
    requires Enabled(s, l)
  {
    l.TaskTakesTasks? && s.t.live[l.id].ip == ip && ip in s.t.tasks && s.t.tasks[ip] != l.id
  }

  lemma ItemKeepsRivals(s: State, l: Label, ip: Ip)
    requires Inv(s) && NoRival(s, ip) && Enabled(s, l) && l.BatchItem?
    ensures NoRival(Next(s, l), ip)
  {
    hide KeysAgree, FilesAgree;
    var p := s.batches[l.b].todo[0];
    if p.ip != ip {
      OtherItemSpares(s.t, p, s.clock, ip);
    }
  }

  lemma TakeTasksRival(s: State, l: Label, ip: Ip)
    requires Inv(s) && NoRival(s, ip) && Enabled(s, l) && l.TaskTakesTasks?
    ensures NoRival(Next(s, l), ip) <==> !TakesHandleOfOther(s, l, ip)
  {
    hide KeysAgree, FilesAgree;
    var s' := Next(s, l);
    if TakesHandleOfOther(s, l, ip) {
      var id := s.t.tasks[ip];
      assert id in s'.t.live && s'.t.live[id].ip == ip && !s'.t.live[id].cancelled && s'.t.live[id].phase != HasBoth;
    }
  }

  lemma OtherKeepsRivals(s: State, l: Label, ip: Ip)
    requires Inv(s) && NoRival(s, ip) && Enabled(s, l) && !l.BatchItem? && !l.TaskTakesTasks?
    ensures NoRival(Next(s, l), ip)
  {
    hide LocksAgree, HandlesAgree, KeysAgree, FilesAgree;
    if ByBatchCall(l) || l.Tick? {
      assert Next(s, l).t == s.t;
    }
  }

  /** Exactly that step makes the address have an un-aborted task without a handle. */
  lemma RivalIff(s: State, l: Label, ip: Ip)
    requires Inv(s) && NoRival(s, ip) && Enabled(s, l)
    ensures NoRival(Next(s, l), ip) <==> !TakesHandleOfOther(s, l, ip)
  {
    hide Inv, NoRival, Enabled, Next;
    if l.BatchItem? {
      ItemKeepsRivals(s, l, ip);
    } else if l.TaskTakesTasks? {
      TakeTasksRival(s, l, ip);
    } else {
      OtherKeepsRivals(s, l, ip);
    }
  }

  ghost predicate HandlesKept(s: State, ls: seq<Label>, ip: Ip)
    requires IsRun(s, ls)
    decreases |ls|
  {
    ls == [] || (!TakesHandleOfOther(s, ls[0], ip) && HandlesKept(Next(s, ls[0]), ls[1..], ip))
  }

  lemma {:induction false} RivalRun(s: State, ls: seq<Label>, ip: Ip)
    requires Inv(s) && NoRival(s, ip) && IsRun(s, ls) && HandlesKept(s, ls, ip)
    ensures NoRival(After(s, ls), ip)
    decreases |ls|
  {
    hide Next, Enabled, Inv, NoRival, TakesHandleOfOther;
    if ls != [] {
      StepKeeps(s, ls[0]);
      RivalIff(s, ls[0], ip);
      RivalRun(Next(s, ls[0]), ls[1..], ip);
    }
  }

  /** On every run, whatever was aborted and when: as long as no expiring task took the handle
      of another one away, an address has, whenever the policy lock is free, exactly one
      un-aborted task if its duration is positive, and none otherwise. */
  lemma OneUnabortedTask(ls: seq<Label>, ip: Ip)
    requires IsRun(INIT, ls) && HandlesKept(INIT, ls, ip) && After(INIT, ls).policyLock == Nobody
    ensures var s := After(INIT, ls);
            if ip in Timed(s.t.policies) then ip in s.t.tasks && UnabortedOf(s, ip) == {s.t.tasks[ip]}
            else UnabortedOf(s, ip) == {}
  {
    InitHolds();
    RunKeeps(INIT, ls);
    assert NoRival(INIT, ip);
    RivalRun(INIT, ls, ip);
    TablesAgreeOnEveryRun(ls);
  }

  ghost function Handles(tasks: map<Ip, TaskId>): set<TaskId> {
    set ip | ip in tasks :: tasks[ip]
  }

  lemma HandlesWithout(tasks: map<Ip, TaskId>, rest: map<Ip, TaskId>, x: Ip)
    requires x in tasks && rest.Keys == tasks.Keys - {x} && forall ip :: ip in rest ==> rest[ip] == tasks[ip]
    requires forall y :: y in rest ==> tasks[y] != tasks[x]
    ensures |Handles(tasks)| == |Handles(rest)| + 1
  {
    assert Handles(tasks) == Handles(rest) + {tasks[x]};
  }

  lemma {:induction false} HandledCount(tasks: map<Ip, TaskId>)
    requires forall x, y :: x in tasks && y in tasks && x != y ==> tasks[x] != tasks[y]
    ensures |Handles(tasks)| == |tasks|
    decreases |tasks|
  {
    if |tasks| > 0 {
      var x :| x in tasks.Keys;
      var rest := tasks - {x};
      HandlesWithout(tasks, rest, x);
      hide Handles;
      assert |rest.Keys| == |tasks.Keys| - 1;
      HandledCount(rest);
    }
  }

  lemma SubsetSizes<T>(a: set<T>, b: set<T>)
    requires a <= b
    ensures |a| == |b| <==> a == b
  {
    assert b == a + (b - a);
  }

  /** On every run, whenever the policy lock is free: the correspondence holds if and only if
      there are as many un-aborted tasks as handles. There are as many live tasks as handles if
      and only if in addition no aborted task is left. */
  lemma OneToOneIff(ls: seq<Label>)
    requires IsRun(INIT, ls) && After(INIT, ls).policyLock == Nobody
    ensures var s := After(INIT, ls); OneToOne(s) <==> |Unaborted(s)| == |s.t.tasks|
    ensures var s := After(INIT, ls);
            |s.t.live| == |s.t.tasks| <==> OneToOne(s) && forall id :: id in s.t.live ==> !s.t.live[id].cancelled
  {
    InitHolds();
    RunKeeps(INIT, ls);
    TablesAgreeOnEveryRun(ls);
    CountDecides(After(INIT, ls));
    NoneLeft(After(INIT, ls));
  }

  lemma CountDecides(s: State)
    requires Inv(s) && s.t.tasks.Keys == Timed(s.t.policies)
    ensures OneToOne(s) <==> |Unaborted(s)| == |s.t.tasks|
    ensures Handles(s.t.tasks) <= Unaborted(s) && |Handles(s.t.tasks)| == |s.t.tasks|
  {
    hide LocksAgree, KeysAgree, FilesAgree;
    HandledCount(s.t.tasks);
    SubsetSizes(Handles(s.t.tasks), Unaborted(s));
    if OneToOne(s) {
      forall id | id in Unaborted(s)
        ensures id in Handles(s.t.tasks)
      {
        assert id in UnabortedOf(s, s.t.live[id].ip);
      }
    }
    if Handles(s.t.tasks) == Unaborted(s) {
      forall id | id in Unaborted(s)
        ensures s.t.live[id].ip in s.t.tasks && s.t.tasks[s.t.live[id].ip] == id
      {
        assert id in Handles(s.t.tasks);
      }
    }
  }

  lemma NoneLeft(s: State)
    requires Inv(s) && s.t.tasks.Keys == Timed(s.t.policies)
    ensures |s.t.live| == |s.t.tasks| <==> OneToOne(s) && forall id :: id in s.t.live ==> !s.t.live[id].cancelled
  {
    CountDecides(s);
    hide Inv, OneToOne, Handles;
    assert |s.t.live| == |s.t.live.Keys|;
    SubsetSizes(Handles(s.t.tasks), Unaborted(s));
    SubsetSizes(Handles(s.t.tasks), s.t.live.Keys);
    SubsetSizes(Unaborted(s), s.t.live.Keys);
  }

  // ---------------------------------------------------------------- permanence

  /** A step does not touch an address unless it is a batch item for it. */
  ghost predicate Leaves(s: State, l: Label, ip: Ip)
    requires Enabled(s, l)
  {
    l.BatchItem? ==> s.batches[l.b].todo[0].ip != ip
  }

  ghost predicate LeavesRun(s: State, ls: seq<Label>, ip: Ip)
    requires IsRun(s, ls)
    decreases |ls|
  {
    ls == [] || (Leaves(s, ls[0], ip) && LeavesRun(Next(s, ls[0]), ls[1..], ip))
  }

  ghost predicate HasTask(s: State, ip: Ip) {
    exists id :: id in s.t.live && s.t.live[id].ip == ip
  }

  /** Only a task for the address itself can expire it. */
  lemma StepSparesUntasked(s: State, l: Label, ip: Ip)
    requires Enabled(s, l) && Leaves(s, l, ip) && ip in s.t.policies && !HasTask(s, ip)
    ensures ip in Next(s, l).t.policies && Next(s, l).t.policies[ip] == s.t.policies[ip]
    ensures !HasTask(Next(s, l), ip)
  {
    var s' := Next(s, l);
    forall id | id in s'.t.live
      ensures s'.t.live[id].ip != ip
    {
      assert id in s.t.live ==> s'.t.live[id].ip == s.t.live[id].ip || s'.t.live[id].ip == s.batches[l.b].todo[0].ip;
    }
  }

  lemma {:induction false} RunSparesUntasked(s: State, ls: seq<Label>, ip: Ip)
    requires IsRun(s, ls) && LeavesRun(s, ls, ip) && ip in s.t.policies && !HasTask(s, ip)
    ensures ip in After(s, ls).t.policies && After(s, ls).t.policies[ip] == s.t.policies[ip]
    decreases |ls|
  {
    hide Next, Enabled, HasTask, Leaves;
    if ls != [] {
      StepSparesUntasked(s, ls[0], ip);
      RunSparesUntasked(Next(s, ls[0]), ls[1..], ip);
    }
  }

  lemma NoTaskForPermanent(s: State, ip: Ip)
    requires Inv(s) && NoStray(s, ip) && ip in s.t.policies && s.t.policies[ip].duration == 0
    requires s.policyLock == Nobody
    ensures !HasTask(s, ip)
  {
    assert InTransit(s) == {};
    assert ip !in Timed(s.t.policies);
  }

  /** No future that leaves the address alone removes it. */
  ghost predicate SafeFromExpiry(s: State, ip: Ip) {
    forall ls :: IsRun(s, ls) && LeavesRun(s, ls, ip) ==> ip in After(s, ls).t.policies
  }

  /** An address made permanent, none of whose tasks was aborted in mid-poll, is never removed
      by an expiry, whatever happens afterwards, until a batch names it again. */
  lemma PermanentIsNeverExpired(ls: seq<Label>, later: seq<Label>, ip: Ip)
    requires IsRun(INIT, ls) && CleanRun(INIT, ls, ip)
    requires var s := After(INIT, ls);
             && s.policyLock == Nobody && ip in s.t.policies && s.t.policies[ip].duration == 0
             && IsRun(s, later) && LeavesRun(s, later, ip)
    ensures var s := After(INIT, ls);
            ip in After(s, later).t.policies && After(s, later).t.policies[ip] == s.t.policies[ip]
  {
    InitHolds();
    InitNoStray(ip);
    CleanRunKeeps(INIT, ls, ip);
    NoTaskForPermanent(After(INIT, ls), ip);
    RunSparesUntasked(After(INIT, ls), later, ip);
  }

  lemma {:induction false} RunSnoc(s: State, ls: seq<Label>, l: Label)
    requires IsRun(s, ls) && Enabled(After(s, ls), l)
    ensures IsRun(s, ls + [l]) && After(s, ls + [l]) == Next(After(s, ls), l)
    decreases |ls|
  {
    hide Next, Enabled;
    if ls == [] {
      assert ls + [l] == [l] && [l][1..] == [];
    } else {
      RunSnoc(Next(s, ls[0]), ls[1..], l);
      assert (ls + [l])[1..] == ls[1..] + [l];
    }
  }

  lemma {:induction false} RunConcat(s: State, xs: seq<Label>, ys: seq<Label>)
    requires IsRun(s, xs) && IsRun(After(s, xs), ys)
    ensures IsRun(s, xs + ys) && After(s, xs + ys) == After(After(s, xs), ys)
    decreases |xs|
  {
    hide Next, Enabled;
    if xs == [] {
      assert xs + ys == ys;
    } else {
      RunConcat(Next(s, xs[0]), xs[1..], ys);
      assert (xs + ys)[1..] == xs[1..] + ys;
    }
  }

  /** Time passes; the clock reaches any moment. */
  lemma {:induction false} Wait(s: State, until: nat) returns (ls: seq<Label>)
    ensures forall l :: l in ls ==> l == Tick
    ensures IsRun(s, ls) && After(s, ls) == s.(clock := if until > s.clock then until else s.clock)
    decreases until - s.clock
  {
    if until <= s.clock {
      ls := [];
    } else {
      var rest := Wait(s.(clock := s.clock + 1), until);
      ls := [Tick] + rest;
      assert ls[1..] == rest;
    }
  }

  function Later(a: nat, b: nat): nat { if a >= b then a else b }

  /** A live task, even one whose abort came too late, can still remove its address, and as
      soon as its deadline. */
  lemma TaskExpires(s: State, id: TaskId) returns (ls: seq<Label>)
    requires LocksAgree(s) && HandlesAgree(s) && s.policyLock == Nobody && id in s.t.live
    ensures forall l :: l in ls ==> !ByBatchCall(l)
    ensures IsRun(s, ls) && s.t.live[id].ip !in After(s, ls).t.policies
    ensures After(s, ls).clock == Later(s.clock, s.t.live[id].deadline)
  {
    var task := s.t.live[id];
    if task.phase == Sleeping {
      ls := Wait(s, task.deadline);
      FireAndPoll(After(s, ls), id);
      hide Next, Enabled, LocksAgree, HandlesAgree;
      RunSnoc(s, ls, Fire(id));
      RunSnoc(s, ls + [Fire(id)], Poll(id));
      ls := ls + [Fire(id)] + [Poll(id)];
    } else {
      var l := if task.phase == Awake then Poll(id) else Grant(id);
      GoesAhead(s, id, l);
      hide Next, Enabled, LocksAgree, HandlesAgree;
      ls := [l];
      assert [l][1..] == [];
    }
  }

  lemma FireAndPoll(s: State, id: TaskId)
    requires id in s.t.live && s.t.live[id].phase == Sleeping && s.t.live[id].deadline <= s.clock && s.policyLock == Nobody
    ensures Enabled(s, Fire(id)) && Enabled(Next(s, Fire(id)), Poll(id))
    ensures var s' := Next(Next(s, Fire(id)), Poll(id)); s.t.live[id].ip !in s'.t.policies && s'.clock == s.clock
  {
  }

  lemma GoesAhead(s: State, id: TaskId, l: Label)
    requires LocksAgree(s) && HandlesAgree(s) && s.policyLock == Nobody && id in s.t.live && s.t.live[id].phase != Sleeping
    requires l == if s.t.live[id].phase == Awake then Poll(id) else Grant(id)
    ensures Enabled(s, l) && s.t.live[id].ip !in Next(s, l).t.policies
    ensures Next(s, l).clock == s.clock >= s.t.live[id].deadline
  {
  }

  lemma {:induction false} TimerRunLeaves(s: State, ls: seq<Label>, ip: Ip)
    requires IsRun(s, ls) && forall l :: l in ls ==> !ByBatchCall(l)
    ensures LeavesRun(s, ls, ip)
    decreases |ls|
  {
    hide Next, Enabled;
    if ls != [] {
      assert ls[0] in ls;
      TimerRunLeaves(Next(s, ls[0]), ls[1..], ip);
    }
  }

  lemma PartsOf(s: State)
    requires Inv(s)
    ensures LocksAgree(s) && HandlesAgree(s)
  {
  }

  /** Exactly when an address is safe from expiry, on any run: when it has no live task. */
  lemma SafeIffNoTask(s: State, ip: Ip)
    requires Inv(s) && s.policyLock == Nobody && ip in s.t.policies
    ensures SafeFromExpiry(s, ip) <==> !HasTask(s, ip)
  {
    hide Inv, LocksAgree, HandlesAgree;
    if HasTask(s, ip) {
      var id :| id in s.t.live && s.t.live[id].ip == ip;
      PartsOf(s);
      var ls := TaskExpires(s, id);
      TimerRunLeaves(s, ls, ip);
    } else {
      forall ls | IsRun(s, ls) && LeavesRun(s, ls, ip)
        ensures ip in After(s, ls).t.policies
      {
        RunSparesUntasked(s, ls, ip);
      }
    }
  }

  /** A live task for the address that its handle does not refer to. */
  ghost predicate HasStray(s: State, ip: Ip) {
    exists id :: id in s.t.live && s.t.live[id].ip == ip && !(ip in s.t.tasks && s.t.tasks[ip] == id)
  }

  /** The handle's task is being polled. */
  ghost predicate InMidPoll(s: State, ip: Ip) {
    ip in s.t.tasks && s.t.tasks[ip] in s.t.live && s.t.live[s.t.tasks[ip]].phase == Awake
  }

  /** What making an address permanent leaves behind, at the abort itself: a task stays alive
      if and only if the aborted one was being polled or there was a stray one already. */
  lemma AbortLeavesTaskIff(s: State, b: BatchId)
    requires Inv(s) && Enabled(s, BatchItem(b)) && s.batches[b].todo[0].duration == 0
    ensures var ip := s.batches[b].todo[0].ip;
            HasTask(Next(s, BatchItem(b)), ip) <==> InMidPoll(s, ip) || HasStray(s, ip)
  {
    hide LocksAgree, KeysAgree, FilesAgree;
    var p := s.batches[b].todo[0];
    var ip, t, t' := p.ip, s.t, Item(s.t, p, s.clock);
    if InMidPoll(s, ip) {
      var id := t.tasks[ip];
      assert id in t'.live && t'.live[id].ip == ip;
    }
    if HasStray(s, ip) {
      var id :| id in t.live && t.live[id].ip == ip && !(ip in t.tasks && t.tasks[ip] == id);
      assert id in t'.live && t'.live[id].ip == ip;
    }
  }

  lemma {:induction false} LeavesConcat(s: State, xs: seq<Label>, ys: seq<Label>, ip: Ip)
    requires IsRun(s, xs) && IsRun(After(s, xs), ys) && IsRun(s, xs + ys)
    requires LeavesRun(s, xs, ip) && LeavesRun(After(s, xs), ys, ip)
    ensures LeavesRun(s, xs + ys, ip)
    decreases |xs|
  {
    hide Next, Enabled, Leaves;
    if xs == [] {
      assert xs + ys == ys;
    } else {
      assert (xs + ys)[1..] == xs[1..] + ys;
      LeavesConcat(Next(s, xs[0]), xs[1..], ys, ip);
    }
  }

  /** A batch at work can be finished; a task of an address it no longer names stays alive. */
  lemma {:induction false} FinishBatch(s: State, b: BatchId, ip: Ip, id: TaskId) returns (ls: seq<Label>)
    requires Inv(s) && b in s.batches && s.batches[b].stage == Working
    requires forall q :: q in s.batches[b].todo ==> q.ip != ip
    requires id in s.t.live && s.t.live[id].ip == ip
    ensures IsRun(s, ls) && LeavesRun(s, ls, ip)
    ensures var s' := After(s, ls); Inv(s') && s'.policyLock == Nobody && id in s'.t.live && s'.t.live[id].ip == ip
    decreases |s.batches[b].todo|
  {
    hide Inv, Next, Enabled;
    var todo := s.batches[b].todo;
    var l := if todo == [] then BatchEnds(b, Mirror(s.t.policies), true) else BatchItem(b);
    BatchCanStep(s, b);
    StepKeeps(s, l);
    BatchStepSpares(s, b, ip, id);
    var s' := Next(s, l);
    if todo == [] {
      ls := [l];
      assert ls[1..] == [];
    } else {
      assert todo[0] in todo;
      var rest := FinishBatch(s', b, ip, id);
      ls := [l] + rest;
      assert ls[1..] == rest;
    }
  }

  lemma BatchCanStep(s: State, b: BatchId)
    requires b in s.batches && s.batches[b].stage == Working
    ensures Enabled(s, if s.batches[b].todo == [] then BatchEnds(b, Mirror(s.t.policies), true) else BatchItem(b))
  {
  }

  lemma BatchStepSpares(s: State, b: BatchId, ip: Ip, id: TaskId)
    requires Inv(s) && b in s.batches && s.batches[b].stage == Working
    requires forall q :: q in s.batches[b].todo ==> q.ip != ip
    requires id in s.t.live && s.t.live[id].ip == ip
    ensures var todo := s.batches[b].todo;
            var l := if todo == [] then BatchEnds(b, Mirror(s.t.policies), true) else BatchItem(b);
            Enabled(s, l) && var s' := Next(s, l);
            && id in s'.t.live && s'.t.live[id].ip == ip
            && (todo == [] ==> s'.policyLock == Nobody)
            && (todo != [] ==> Leaves(s, l, ip) && b in s'.batches && s'.batches[b] == Batch(todo[1..], Working))
            && (todo == [] ==> Leaves(s, l, ip))
  {
    hide LocksAgree, KeysAgree, FilesAgree;
    BatchCanStep(s, b);
    var todo := s.batches[b].todo;
    if todo != [] {
      assert todo[0] in todo;
      OtherItemSpares(s.t, todo[0], s.clock, ip);
    }
  }

  /** Making an address permanent protects it from every future expiry if and only if its task
      was not in mid-poll and no stray task was left from an earlier abort. */
  lemma PermanentIff(s: State, b: BatchId)
    requires Inv(s) && Enabled(s, BatchItem(b)) && s.batches[b].todo[0].duration == 0
    requires forall q :: q in s.batches[b].todo[1..] ==> q.ip != s.batches[b].todo[0].ip
    ensures var ip := s.batches[b].todo[0].ip;
            SafeFromExpiry(Next(s, BatchItem(b)), ip) <==> !InMidPoll(s, ip) && !HasStray(s, ip)
  {
    var ip, s' := s.batches[b].todo[0].ip, Next(s, BatchItem(b));
    assert ip in s'.t.policies && b in s'.batches && s'.batches[b] == Batch(s.batches[b].todo[1..], Working);
    hide Inv, Next, Enabled, InMidPoll, HasStray;
    AbortLeavesTaskIff(s, b);
    StepKeeps(s, BatchItem(b));
    if HasTask(s', ip) {
      var id :| id in s'.t.live && s'.t.live[id].ip == ip;
      var xs := FinishBatch(s', b, ip, id);
      var free := After(s', xs);
      PartsOf(free);
      var ys := TaskExpires(free, id);
      TimerRunLeaves(free, ys, ip);
      RunConcat(s', xs, ys);
      LeavesConcat(s', xs, ys, ip);
    } else {
      forall ls | IsRun(s', ls) && LeavesRun(s', ls, ip)
        ensures ip in After(s', ls).t.policies
      {
        RunSparesUntasked(s', ls, ip);
      }
    }
  }

  // ---------------------------------------------------------------- deadlines

  /** As long as an address keeps its handle, no step moves its deadline: a later batch
      with another positive duration does not restart the timer. */
  lemma StepKeepsDeadline(s: State, l: Label, ip: Ip)
    requires HandlesAgree(s) && Enabled(s, l) && ip in s.t.tasks && ip in Next(s, l).t.tasks
    ensures var s' := Next(s, l);
            && s'.t.tasks[ip] == s.t.tasks[ip]
            && s.t.tasks[ip] in s.t.live && s.t.tasks[ip] in s'.t.live
            && s'.t.live[s'.t.tasks[ip]].deadline == s.t.live[s.t.tasks[ip]].deadline
  {
    if l.BatchItem? {
      ItemKeepsDeadline(s.t, s.batches[l.b].todo[0], s.clock, ip);
    }
  }

  lemma ItemKeepsDeadline(t: Tables, p: Policy, now: nat, ip: Ip)
    requires ip in t.tasks && t.tasks[ip] in t.live && t.live[t.tasks[ip]].ip == ip && ip in Item(t, p, now).tasks
    requires forall id :: id in t.live ==> id < t.nextTask
    requires forall k :: k in t.tasks && k != ip ==> t.tasks[k] != t.tasks[ip]
    ensures var t' := Item(t, p, now);
            t'.tasks[ip] == t.tasks[ip] && t'.tasks[ip] in t'.live && t'.live[t'.tasks[ip]].deadline == t.live[t.tasks[ip]].deadline
  {
  }

  ghost predicate KeepsHandle(s: State, ls: seq<Label>, ip: Ip)
    requires IsRun(s, ls)
    decreases |ls|
  {
    ip in s.t.tasks && (ls == [] || KeepsHandle(Next(s, ls[0]), ls[1..], ip))
  }

  lemma {:induction false} RunKeepsDeadline(s: State, ls: seq<Label>, ip: Ip)
    requires Inv(s) && IsRun(s, ls) && KeepsHandle(s, ls, ip)
    ensures var s' := After(s, ls);
            && ip in s'.t.tasks && s'.t.tasks[ip] in s'.t.live && s.t.tasks[ip] in s.t.live
            && s'.t.live[s'.t.tasks[ip]].deadline == s.t.live[s.t.tasks[ip]].deadline
    decreases |ls|
  {
    hide Next, Enabled, LocksAgree, KeysAgree, FilesAgree;
    if ls != [] {
      StepKeeps(s, ls[0]);
      StepKeepsDeadline(s, ls[0], ip);
      RunKeepsDeadline(Next(s, ls[0]), ls[1..], ip);
    }
  }

  /** An address without stray tasks is removed only when its own deadline has passed. */
  lemma ExpiryIsDue(s: State, l: Label, ip: Ip)
    requires Inv(s) && NoStray(s, ip) && Enabled(s, l)
    requires ip in s.t.policies && ip !in Next(s, l).t.policies
    ensures ip in s.t.tasks && s.t.tasks[ip] in s.t.live
    ensures s.t.live[s.t.tasks[ip]].deadline <= s.clock
  {
    hide LocksAgree, KeysAgree, FilesAgree;
  }

  /** From the moment a batch arms the timer of an address none of whose tasks is aborted in
      mid-poll: however many batches name it again with a positive duration, it is not removed
      before the first duration is over. */
  lemma NotExpiredEarly(ls: seq<Label>, b: BatchId, later: seq<Label>, l: Label, ip: Ip)
    requires IsRun(INIT, ls) && CleanRun(INIT, ls, ip)
    requires var s := After(INIT, ls);
             && Enabled(s, BatchItem(b)) && s.batches[b].todo[0].ip == ip && s.batches[b].todo[0].duration > 0
             && ip !in s.t.tasks
    requires var s' := Next(After(INIT, ls), BatchItem(b));
             && IsRun(s', later) && CleanRun(s', later, ip) && KeepsHandle(s', later, ip)
             && Enabled(After(s', later), l)
             && ip in After(s', later).t.policies && ip !in Next(After(s', later), l).t.policies
    ensures var s := After(INIT, ls);
            After(Next(s, BatchItem(b)), later).clock >= s.clock + s.batches[b].todo[0].duration
  {
    hide LocksAgree, KeysAgree, FilesAgree, NoStray, Clean;
    InitHolds();
    InitNoStray(ip);
    CleanRunKeeps(INIT, ls, ip);
    var s := After(INIT, ls);
    var s' := Next(s, BatchItem(b));
    StepKeeps(s, BatchItem(b));
    assert Clean(s, BatchItem(b), ip) by { ArmingIsClean(s, b, ip); }
    StrayIff(s, BatchItem(b), ip);
    CleanRunKeeps(s', later, ip);
    RunKeepsDeadline(s', later, ip);
    ExpiryIsDue(After(s', later), l, ip);
  }

  lemma ArmingIsClean(s: State, b: BatchId, ip: Ip)
    requires Enabled(s, BatchItem(b)) && s.batches[b].todo[0].duration > 0
    ensures Clean(s, BatchItem(b), ip)
  {
  }

  /** Every live task of the address is due at the given time at the earliest. */
  ghost predicate NoneEarlier(s: State, ip: Ip, due: nat) {
    forall id :: id in s.t.live && s.t.live[id].ip == ip ==> s.t.live[id].deadline >= due
  }

  /** No future that leaves the address alone removes it before the given time. */
  ghost predicate SafeUntil(s: State, ip: Ip, due: nat) {
    forall ls :: IsRun(s, ls) && LeavesRun(s, ls, ip) && After(s, ls).clock < due ==> ip in After(s, ls).t.policies
  }

  lemma StepSparesUntil(s: State, l: Label, ip: Ip, due: nat)
    requires HandlesAgree(s) && Enabled(s, l) && Leaves(s, l, ip) && ip in s.t.policies && NoneEarlier(s, ip, due) && s.clock < due
    ensures ip in Next(s, l).t.policies && NoneEarlier(Next(s, l), ip, due) && Next(s, l).clock >= s.clock
  {
    if l.BatchItem? {
      OtherItemSpares(s.t, s.batches[l.b].todo[0], s.clock, ip);
    }
  }

  lemma {:induction false} ClockMonotone(s: State, ls: seq<Label>)
    requires IsRun(s, ls)
    ensures After(s, ls).clock >= s.clock
    decreases |ls|
  {
    if ls != [] {
      assert Next(s, ls[0]).clock >= s.clock;
      hide Next, Enabled;
      ClockMonotone(Next(s, ls[0]), ls[1..]);
    }
  }

  lemma {:induction false} RunSparesUntil(s: State, ls: seq<Label>, ip: Ip, due: nat)
    requires Inv(s) && IsRun(s, ls) && LeavesRun(s, ls, ip) && ip in s.t.policies && NoneEarlier(s, ip, due)
    requires After(s, ls).clock < due
    ensures ip in After(s, ls).t.policies
    decreases |ls|
  {
    hide Next, Enabled, Inv, HandlesAgree, LocksAgree, NoneEarlier, Leaves;
    if ls != [] {
      ClockMonotone(s, ls);
      PartsOf(s);
      StepSparesUntil(s, ls[0], ip, due);
      StepKeeps(s, ls[0]);
      RunSparesUntil(Next(s, ls[0]), ls[1..], ip, due);
    }
  }

  /** Exactly when an address cannot be removed before the deadline of its handle's task, on
      any run: when no live task of the address can fire earlier. */
  lemma NotEarlyIff(s: State, ip: Ip)
    requires Inv(s) && s.policyLock == Nobody && ip in s.t.policies && ip in s.t.tasks && s.t.tasks[ip] in s.t.live
    ensures var due := s.t.live[s.t.tasks[ip]].deadline;
            SafeUntil(s, ip, due) <==>
            forall id :: id in s.t.live && s.t.live[id].ip == ip ==> Later(s.clock, s.t.live[id].deadline) >= due
  {
    hide Inv, LocksAgree, HandlesAgree, Next, Enabled;
    var due := s.t.live[s.t.tasks[ip]].deadline;
    if id :| id in s.t.live && s.t.live[id].ip == ip && Later(s.clock, s.t.live[id].deadline) < due {
      PartsOf(s);
      var ls := TaskExpires(s, id);
      TimerRunLeaves(s, ls, ip);
      assert !SafeUntil(s, ip, due);
    } else {
      forall ls | IsRun(s, ls) && LeavesRun(s, ls, ip) && After(s, ls).clock < due
        ensures ip in After(s, ls).t.policies
      {
        ClockMonotone(s, ls);
        RunSparesUntil(s, ls, ip, due);
      }
    }
  }

  // ---------------------------------------------------------------- an abort that comes too late

  /** The beginning of the runs below: a timer of one second fires, and before its task asks
      for the lock a batch makes the address permanent. The abort does not stop the task. */
  lemma AbortedInMidPoll(ip: Ip) returns (ls: seq<Label>)
    ensures IsRun(INIT, ls)
    ensures var forever := Policy(1, ip, 0, false);
            After(INIT, ls) == State(Tables(map[ip := forever], map[], map[0 := Task(ip, 1, Awake, true)], 1),
                                     map[], Nobody, Nobody, 1, Mirror(map[ip := forever]), true)
  {
    var timed, forever := Policy(1, ip, 1, false), Policy(1, ip, 0, false);
    var armed := Batched(INIT, 0, timed);
    var s := After(INIT, armed);
    assert s.t == Tables(map[ip := timed], map[ip := 0], map[0 := Task(ip, 1, Sleeping, false)], 1);
    RunSnoc(INIT, armed, Tick);
    RunSnoc(INIT, armed + [Tick], Fire(0));
    var fired := armed + [Tick] + [Fire(0)];
    var woken := After(INIT, fired);
    assert woken.t.live == map[0 := Task(ip, 1, Awake, false)];
    var rest := Batched(woken, 1, forever);
    RunConcat(INIT, fired, rest);
    ls := fired + rest;
    var last := After(INIT, ls);
    assert last.t.live == map[0 := Task(ip, 1, Awake, true)];
    assert last.t.policies == map[ip := forever];
    assert last.t.tasks == map[];
  }

  /** A run in which an address is made permanent and removed by its old timer all the
      same. The abort reaches the task after its timer fired and before it asked for the
      lock; the batch then releases the lock and the task takes it. */
  lemma LateAbort() returns (ls: seq<Label>, ip: Ip)
    ensures IsRun(INIT, ls) && ls != [] && !ByBatchCall(ls[|ls| - 1])
    ensures IsRun(INIT, ls[..|ls| - 1])
    ensures var s := After(INIT, ls[..|ls| - 1]); ip in s.t.policies && s.t.policies[ip].duration == 0 && s.policyLock == Nobody
    ensures ip !in After(INIT, ls).t.policies
  {
    ip := "10.0.0.1";
    ls := AbortedInMidPoll(ip);
    RunSnoc(INIT, ls, Poll(0));
    assert (ls + [Poll(0)])[..|ls|] == ls;
    ls := ls + [Poll(0)];
  }

  /** The address is armed again, for a hundred seconds, before the old task goes on. */
  lemma Rearmed(ip: Ip) returns (ls: seq<Label>)
    ensures IsRun(INIT, ls)
    ensures var long := Policy(1, ip, 100, false);
            After(INIT, ls) == State(Tables(map[ip := long], map[ip := 1],
                                            map[0 := Task(ip, 1, Awake, true), 1 := Task(ip, 101, Sleeping, false)], 2),
                                     map[], Nobody, Nobody, 1, Mirror(map[ip := long]), true)
  {
    var long := Policy(1, ip, 100, false);
    var aborted := AbortedInMidPoll(ip);
    var s := After(INIT, aborted);
    var rest := Batched(s, 2, long);
    RunConcat(INIT, aborted, rest);
    ls := aborted + rest;
    var t := After(INIT, ls).t;
    assert t.policies == map[ip := long] && t.tasks == map[ip := 1];
    assert t.live == map[0 := Task(ip, 1, Awake, true), 1 := Task(ip, 101, Sleeping, false)];
  }

  /** A run in which an address armed until second 101 is removed in second 1. */
  lemma ExpiredTooEarly() returns (ls: seq<Label>, l: Label, ip: Ip)
    ensures IsRun(INIT, ls) && Enabled(After(INIT, ls), l) && !ByBatchCall(l)
    ensures var s := After(INIT, ls);
            && s.policyLock == Nobody && ip in s.t.policies && ip in s.t.tasks && s.t.tasks[ip] in s.t.live
            && s.t.live[s.t.tasks[ip]].deadline == 101 && !s.t.live[s.t.tasks[ip]].cancelled
            && s.clock == 1 && ip !in Next(s, l).t.policies && Next(s, l).clock == 1
  {
    ip := "10.0.0.1";
    ls := Rearmed(ip);
    l := Poll(0);
  }

  /** The late task of that run finishes: the address and the handle of the second task are
      gone, the second task still runs. */
  lemma LateTaskFinishes(ip: Ip) returns (ls: seq<Label>)
    ensures IsRun(INIT, ls)
    ensures var s := After(INIT, ls);
            && s.t == Tables(map[], map[], map[1 := Task(ip, 101, Sleeping, false)], 2)
            && s.policyLock == Nobody && s.taskLock == Nobody && s.batches == map[] && s.clock == 1
  {
    ls := Rearmed(ip);
    RunSnoc(INIT, ls, Poll(0));
    ls := ls + [Poll(0)];
    RunSnoc(INIT, ls, TaskTakesTasks(0));
    ls := ls + [TaskTakesTasks(0)];
    assert After(INIT, ls).t.tasks == map[];
    RunSnoc(INIT, ls, TaskEnds(0, Mirror(map[]), true));
    ls := ls + [TaskEnds(0, Mirror(map[]), true)];
  }

  /** A run after which one address has two live tasks, neither of them cancelled, while the
      locks are free: the late task also took the handle of the second one away. */
  lemma TwoTasks() returns (ls: seq<Label>, ip: Ip)
    ensures IsRun(INIT, ls)
    ensures var s := After(INIT, ls);
            && s.policyLock == Nobody && s.taskLock == Nobody && TasksOf(s, ip) == {1, 2}
            && !s.t.live[1].cancelled && !s.t.live[2].cancelled
  {
    ip := "10.0.0.1";
    ls := LateTaskFinishes(ip);
    var s := After(INIT, ls);
    var rest := Batched(s, 3, Policy(1, ip, 50, false));
    RunConcat(INIT, ls, rest);
    ls := ls + rest;
    assert After(INIT, ls).t.live == map[1 := Task(ip, 101, Sleeping, false), 2 := Task(ip, 51, Sleeping, false)];
  }

  /** A whole batch of one policy that meets free locks. */
  lemma Batched(s: State, b: BatchId, p: Policy) returns (ls: seq<Label>)
    requires b !in s.batches && s.policyLock == Nobody && s.taskLock == Nobody
    ensures IsRun(s, ls)
    ensures var t := Item(s.t, p, s.clock);
            After(s, ls) == s.(t := t, kernel := Mirror(t.policies), written := true)
  {
    var t := Item(s.t, p, s.clock);
    var end := BatchEnds(b, Mirror(t.policies), true);
    var s1 := Next(s, Call(b, [p]));
    var s2 := Next(s1, BatchTakesPolicies(b));
    var s3 := Next(s2, BatchTakesTasks(b));
    var s4 := Next(s3, BatchItem(b));
    var s5 := Next(s4, end);
    assert s5.batches == s.batches;
    ls := [];
    RunSnoc(s, ls, Call(b, [p]));
    ls := ls + [Call(b, [p])];
    RunSnoc(s, ls, BatchTakesPolicies(b));
    ls := ls + [BatchTakesPolicies(b)];
    RunSnoc(s, ls, BatchTakesTasks(b));
    ls := ls + [BatchTakesTasks(b)];
    RunSnoc(s, ls, BatchItem(b));
    ls := ls + [BatchItem(b)];
    RunSnoc(s, ls, end);
    ls := ls + [end];
  }
}
