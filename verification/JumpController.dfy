/** The jump controller: a queue of user instructions and a cyclic generator behind the
    agent's requests (ip_jump_controller_qt/src/mockserver.h and mockserver.cpp). */
module JumpController {
  import opened Arithmetic
  import opened Common

  datatype Instruction = Instruction(sourceIp: string, targetIp: string, gateway: string, mode: int, activeTime: int, agingTime: int, prefix: int)

  /** The settings of the generator that it copies into every instruction. */
  datatype Settings = Settings(gateway: string, mode: int, activeTime: int, agingTime: int, prefix: int)

  /** The fields of the server state that its handlers use. */
  datatype Core = Core(queue: seq<Instruction>, current: Option<Instruction>, pending: bool, enabled: bool,
                       pool: seq<string>, settings: Settings, index: nat, lastAgentIp: string, sent: nat)

  datatype Reply = Sent(inst: Instruction, id: Option<nat>) | Empty

  /** What happened so far. User instructions are numbered in the order in which they are
      queued; `current` and `waiting` are the numbers of those not yet delivered. */
  datatype History = History(all: seq<Instruction>, replies: seq<Reply>, current: Option<nat>, waiting: seq<nat>, cleared: seq<nat>)

  datatype Machine = Machine(core: Core, h: History)

  // ---------------------------------------------------------------- text

  /** The part in front of the first separator, or everything if there is none. */
  function Before(s: string, sep: char): (r: string)
    ensures sep !in s ==> r == s
  {
    if s == "" || s[0] == sep then "" else [s[0]] + Before(s[1..], sep)
  }

  predicate Blank(c: char) {
    c == ' ' || '\t' <= c <= '\r'
  }

  ghost predicate Blanks(s: string) {
    forall i :: 0 <= i < |s| ==> Blank(s[i])
  }

  function TrimLeft(s: string): string {
    if s != "" && Blank(s[0]) then TrimLeft(s[1..]) else s
  }

  function TrimRight(s: string): string {
    if s != "" && Blank(s[|s| - 1]) then TrimRight(s[..|s| - 1]) else s
  }

  // ---------------------------------------------------------------- the generator

  function IndexOf(pool: seq<string>, ip: string): (i: int)
    ensures -1 <= i < |pool|
    ensures i >= 0 ==> pool[i] == ip
    ensures i == -1 ==> ip !in pool
  {
    if pool == [] then -1
    else if pool[0] == ip then 0
    else
      var i := IndexOf(pool[1..], ip);
      if i < 0 then -1 else i + 1
  }

  function MakeInstruction(target: string, s: Settings): Instruction {
    Instruction("", target, s.gateway, s.mode, s.activeTime, s.agingTime, s.prefix)
  }

  const NO_INSTRUCTION: Instruction := Instruction("", "", "", 1, 0, 2, 24)

  predicate IsEmpty(inst: Instruction) {
    inst.targetIp == ""
  }

  /** Where the generator continues from: the address it is given if that is in the pool,
      else where it stopped. */
  function StartIndex(c: Core, ip: string): nat {
    var i := IndexOf(c.pool, ip);
    if i < 0 then c.index else i
  }

  /** The next instruction and the remembered index. */
  function Generate(c: Core, ip: string): (Instruction, nat) {
    if |c.pool| < 2 then (NO_INSTRUCTION, c.index)
    else
      var next := (StartIndex(c, ip) + 1) % |c.pool|;
      (MakeInstruction(c.pool[next], c.settings), next)
  }

  // ---------------------------------------------------------------- steps

  datatype Step =
    | Queue(inst: Instruction)
    | Clear
    | Fetch
    | GetTask
    | Report(ips: string)
    | Enable(on: bool)
    | SetPool(ips': seq<string>)
    | Tune(settings: Settings)

  function DoQueue(m: Machine, inst: Instruction): Machine {
    var c, h := m.core, m.h;
    var id := |h.all|;
    var all := h.all + [inst];
    if c.current.None? then
      var queue := c.queue + [inst];
      var waiting := h.waiting + [id];
      Machine(c.(current := Some(queue[0]), queue := queue[1..], pending := true),
              h.(all := all, current := Some(waiting[0]), waiting := waiting[1..]))
    else
      Machine(c.(queue := c.queue + [inst], pending := true), h.(all := all, waiting := h.waiting + [id]))
  }

  function DoClear(m: Machine): Machine {
    Machine(m.core.(queue := []), m.h.(waiting := [], cleared := m.h.cleared + m.h.waiting))
  }

  /** The instruction that follows a delivered one. */
  function Refill(m: Machine, delivered: Instruction): Machine {
    var c, h := m.core, m.h;
    if c.queue != [] then
      Machine(c.(current := Some(c.queue[0]), queue := c.queue[1..], pending := true),
              if h.waiting == [] then h else h.(current := Some(h.waiting[0]), waiting := h.waiting[1..]))
    else if c.enabled then
      Prepare(m, Before(delivered.targetIp, '/'))
    else m
  }

  /** The generator's next instruction becomes the current one, if there is one. */
  function Prepare(m: Machine, ip: string): Machine {
    var (next, index) := Generate(m.core, ip);
    var c := m.core.(index := index);
    Machine(if IsEmpty(next) then c else c.(current := Some(next), pending := true), m.h)
  }

  function Answer(m: Machine, r: Reply): Machine {
    m.(h := m.h.(replies := m.h.replies + [r]))
  }

  function DoFetch(m: Machine): Machine {
    var c, h := m.core, m.h;
    if c.current.Some? then
      var inst := c.current.value;
      var taken := Machine(c.(current := None, pending := false, sent := c.sent + 1), h.(current := None));
      Answer(Refill(taken, inst), Sent(inst, h.current))
    else if c.enabled then
      var (inst, index) := Generate(c, c.lastAgentIp);
      var m1 := m.(core := c.(index := index));
      if IsEmpty(inst) then Answer(m1, Empty)
      else
        var m2 := m1.(core := m1.core.(sent := c.sent + 1));
        Answer(Prepare(m2, inst.targetIp), Sent(inst, None))
    else Answer(m, Empty)
  }

  function Next(m: Machine, step: Step): Machine {
    match step
    case Queue(inst) => DoQueue(m, inst)
    case Clear => DoClear(m)
    case Fetch => DoFetch(m)
    case GetTask => m
    case Report(ips) => if ips == "" then m else m.(core := m.core.(lastAgentIp := TrimRight(TrimLeft(Before(ips, ',')))))
    case Enable(on) => m.(core := m.core.(enabled := on, pending := m.core.pending || (on && |m.core.pool| >= 2)))
    case SetPool(ips) => m.(core := m.core.(pool := ips))
    case Tune(settings) => m.(core := m.core.(settings := settings))
  }

  function Run(m: Machine, steps: seq<Step>): Machine {
    if steps == [] then m else Next(Run(m, steps[..|steps| - 1]), steps[|steps| - 1])
  }

  const BOOT: Machine := Machine(
    Core([], None, false, false, [], Settings("", 1, 30, 2, 24), 0, "", 0),
    History([], [], None, [], []))

  // ---------------------------------------------------------------- delivery

  /** The numbers of the user instructions among the replies. */
  function Delivered(replies: seq<Reply>): seq<nat> {
    if replies == [] then []
    else
      var rest, r := Delivered(replies[..|replies| - 1]), replies[|replies| - 1];
      if r.Sent? && r.id.Some? then rest + [r.id.value] else rest
  }

  function SentCount(replies: seq<Reply>): nat {
    if replies == [] then 0
    else SentCount(replies[..|replies| - 1]) + (if replies[|replies| - 1].Sent? then 1 else 0)
  }

  lemma AnswerCounts(replies: seq<Reply>, r: Reply)
    ensures Delivered(replies + [r]) == Delivered(replies) + (if r.Sent? && r.id.Some? then [r.id.value] else [])
    ensures SentCount(replies + [r]) == SentCount(replies) + (if r.Sent? then 1 else 0)
  {
    assert (replies + [r])[..|replies|] == replies;
  }

  function AsSeq(o: Option<nat>): seq<nat> {
    if o.None? then [] else [o.value]
  }

  /** The user instructions that were not cleared, in the order of delivery. */
  function Line(h: History): seq<nat> {
    Delivered(h.replies) + AsSeq(h.current) + h.waiting
  }

  ghost predicate Increasing(s: seq<nat>) {
    forall i, j :: 0 <= i < j < |s| ==> s[i] < s[j]
  }

  /** Every number below n is in exactly one of the two. */
  ghost predicate Partition(xs: seq<nat>, ys: seq<nat>, n: nat) {
    && (forall i: nat :: i < n ==> (i in xs <==> i !in ys))
    && (forall x :: x in xs || x in ys ==> x < n)
    && |xs| + |ys| == n
  }

  /** The queue and the current instruction are the ones the history says. */
  ghost predicate Agree(m: Machine) {
    var c, h := m.core, m.h;
    && |c.queue| == |h.waiting|
    && (forall i :: 0 <= i < |c.queue| ==> h.waiting[i] < |h.all| && c.queue[i] == h.all[h.waiting[i]])
    && (h.current.Some? ==> h.current.value < |h.all| && c.current == Some(h.all[h.current.value]))
  }

  ghost predicate Flags(m: Machine) {
    var c := m.core;
    && (c.current.None? ==> c.queue == [])
    && (c.current.Some? ==> c.pending)
    && c.sent == SentCount(m.h.replies)
  }

  /** What a user instruction was delivered as is what was queued. */
  ghost predicate Faithful(h: History) {
    forall i :: 0 <= i < |h.replies| && h.replies[i].Sent? && h.replies[i].id.Some? ==>
      h.replies[i].id.value < |h.all| && h.replies[i].inst == h.all[h.replies[i].id.value]
  }

  ghost predicate Ordered(h: History) {
    && Increasing(Line(h)) && Increasing(h.cleared)
    && Partition(Line(h), h.cleared, |h.all|)
    && (forall x, y :: x in h.cleared && y in h.waiting ==> x < y)
  }

  ghost predicate Inv(m: Machine) {
    Agree(m) && Flags(m) && Faithful(m.h) && Ordered(m.h)
  }

  lemma IncreasingConcat(a: seq<nat>, b: seq<nat>)
    requires Increasing(a) && Increasing(b) && forall x, y :: x in a && y in b ==> x < y
    ensures Increasing(a + b)
  {
    forall i, j | 0 <= i < j < |a + b|
      ensures (a + b)[i] < (a + b)[j]
    {
      if i < |a| <= j {
        assert a[i] in a && b[j - |a|] in b;
      }
    }
  }

  lemma SnocLine(xs: seq<nat>, ys: seq<nat>, n: nat)
    requires Increasing(xs) && Partition(xs, ys, n)
    ensures Increasing(xs + [n]) && Partition(xs + [n], ys, n + 1)
  {
    IncreasingConcat(xs, [n]);
    assert forall x: nat :: x in xs + [n] <==> x in xs || x == n;
  }

  lemma OrderedQueue(h: History, h': History, inst: Instruction)
    requires Ordered(h) && h'.all == h.all + [inst] && h'.replies == h.replies && h'.cleared == h.cleared
    requires AsSeq(h'.current) + h'.waiting == AsSeq(h.current) + h.waiting + [|h.all|]
    requires h'.waiting == [] || (forall y :: y in h'.waiting ==> y in h.waiting || y == |h.all|)
    ensures Ordered(h')
  {
    hide Increasing, Partition;
    LineJoin(h, h', |h.all|);
    SnocLine(Line(h), h.cleared, |h.all|);
    assert forall x :: x in h.cleared ==> x < |h.all| by { BelowAll(Line(h), h.cleared, |h.all|); }
  }

  lemma BelowAll(xs: seq<nat>, ys: seq<nat>, n: nat)
    requires Partition(xs, ys, n)
    ensures forall x :: x in xs || x in ys ==> x < n
  {
  }

  lemma LineJoin(h: History, h': History, id: nat)
    requires h'.replies == h.replies && AsSeq(h'.current) + h'.waiting == AsSeq(h.current) + h.waiting + [id]
    ensures Line(h') == Line(h) + [id]
  {
    hide Delivered;
    assert Line(h') == Delivered(h.replies) + (AsSeq(h'.current) + h'.waiting);
    assert Line(h) == Delivered(h.replies) + (AsSeq(h.current) + h.waiting);
  }

  lemma QueueKeeps(m: Machine, inst: Instruction)
    requires Inv(m)
    ensures Inv(DoQueue(m, inst))
  {
    var m' := DoQueue(m, inst);
    assert Ordered(m'.h) by {
      hide Ordered, Agree, Faithful;
      if m.core.current.None? {
        NoCurrentNoWaiting(m);
        assert m.h.waiting + [|m.h.all|] == [|m.h.all|];
        OrderedQueue(m.h, m'.h, inst);
      } else {
        OrderedQueue(m.h, m'.h, inst);
      }
    }
    hide Ordered;
  }

  lemma NoCurrentNoWaiting(m: Machine)
    requires Agree(m) && Flags(m) && m.core.current.None?
    ensures m.h.waiting == [] && m.h.current.None?
  {
  }

  /** The two halves of an increasing line. */
  lemma IncreasingParts(a: seq<nat>, b: seq<nat>)
    requires Increasing(a + b)
    ensures Increasing(a) && Increasing(b) && forall x, y :: x in a && y in b ==> x < y
  {
    var s := a + b;
    assert forall i :: 0 <= i < |a| ==> a[i] == s[i];
    assert forall i :: 0 <= i < |b| ==> b[i] == s[|a| + i];
    forall i, j | 0 <= i < |a| && 0 <= j < |b|
      ensures a[i] < b[j]
    {
      assert s[i] < s[|a| + j];
    }
  }

  /** The waiting half of a line moves to the cleared numbers. */
  lemma MovePart(front: seq<nat>, waiting: seq<nat>, cleared: seq<nat>, n: nat)
    requires Partition(front + waiting, cleared, n) && forall x, y :: x in front && y in waiting ==> x < y
    ensures Partition(front, cleared + waiting, n)
  {
    assert forall x :: x in front + waiting <==> x in front || x in waiting;
    assert forall x :: x in cleared + waiting <==> x in cleared || x in waiting;
  }

  lemma OrderedClear(h: History, h': History)
    requires Ordered(h) && h' == h.(waiting := [], cleared := h.cleared + h.waiting)
    ensures Ordered(h')
  {
    hide Increasing, Partition, Delivered;
    var front := Delivered(h.replies) + AsSeq(h.current);
    assert Line(h) == front + h.waiting;
    assert Line(h') == front;
    IncreasingParts(front, h.waiting);
    IncreasingConcat(h.cleared, h.waiting);
    MovePart(front, h.waiting, h.cleared, |h.all|);
  }

  lemma ClearKeeps(m: Machine)
    requires Inv(m)
    ensures Inv(DoClear(m))
  {
    OrderedClear(m.h, DoClear(m).h);
    hide Ordered;
  }

  /** Taking the current instruction does not change the line, whatever refills it. */
  lemma OrderedFetch(h: History, h': History, r: Reply)
    requires Ordered(h) && h'.all == h.all && h'.cleared == h.cleared && h'.replies == h.replies + [r]
    requires r.Sent? ==> r.id == h.current
    requires r.Empty? ==> h.current == None
    requires AsSeq(h'.current) + h'.waiting == h.waiting
    requires h'.waiting == h.waiting || (h.waiting != [] && h'.waiting == h.waiting[1..])
    ensures Ordered(h')
  {
    hide Increasing, Partition, Delivered;
    LineKept(h, h', r);
    hide Line;
    assert forall y :: y in h'.waiting ==> y in h.waiting;
  }

  lemma LineKept(h: History, h': History, r: Reply)
    requires h'.replies == h.replies + [r] && (r.Sent? ==> r.id == h.current) && (r.Empty? ==> h.current == None)
    requires AsSeq(h'.current) + h'.waiting == h.waiting
    ensures Line(h') == Line(h)
  {
    hide Delivered;
    AnswerCounts(h.replies, r);
    assert Line(h') == Delivered(h'.replies) + (AsSeq(h'.current) + h'.waiting);
  }

  lemma RefillSpec(m: Machine, inst: Instruction)
    requires |m.core.queue| == |m.h.waiting| && m.core.current.None? && m.h.current.None?
    requires forall i :: 0 <= i < |m.core.queue| ==> m.h.waiting[i] < |m.h.all| && m.core.queue[i] == m.h.all[m.h.waiting[i]]
    ensures var m' := Refill(m, inst);
            && Agree(m') && (m'.core.current.None? ==> m'.core.queue == []) && (m'.core.current.Some? ==> m'.core.pending)
            && m'.core.sent == m.core.sent
            && m'.h.all == m.h.all && m'.h.cleared == m.h.cleared && m'.h.replies == m.h.replies
            && AsSeq(m'.h.current) + m'.h.waiting == m.h.waiting
            && (m'.h.waiting == m.h.waiting || (m.h.waiting != [] && m'.h.waiting == m.h.waiting[1..]))
  {
    hide Before;
    if m.core.queue != [] {
      assert [m.h.waiting[0]] + m.h.waiting[1..] == m.h.waiting;
    } else {
      assert AsSeq(None) + m.h.waiting == m.h.waiting;
    }
  }

  lemma FaithfulAnswer(h: History, r: Reply)
    requires Faithful(h) && (r.Sent? && r.id.Some? ==> r.id.value < |h.all| && r.inst == h.all[r.id.value])
    ensures Faithful(h.(replies := h.replies + [r]))
  {
  }

  /** An answered fetch keeps everything if the refill keeps queue, flags and line. */
  lemma AnswerKeeps(m: Machine, m1: Machine, r: Reply)
    requires Inv(m) && Agree(m1)
    requires (m1.core.current.None? ==> m1.core.queue == []) && (m1.core.current.Some? ==> m1.core.pending)
    requires m1.core.sent == m.core.sent + (if r.Sent? then 1 else 0)
    requires m1.h.all == m.h.all && m1.h.cleared == m.h.cleared && m1.h.replies == m.h.replies
    requires AsSeq(m1.h.current) + m1.h.waiting == m.h.waiting
    requires m1.h.waiting == m.h.waiting || (m.h.waiting != [] && m1.h.waiting == m.h.waiting[1..])
    requires r.Sent? ==> r.id == m.h.current
    requires r.Sent? && r.id.Some? ==> r.id.value < |m.h.all| && r.inst == m.h.all[r.id.value]
    requires r.Empty? ==> m.h.current == None
    ensures Inv(Answer(m1, r))
  {
    hide Ordered, Delivered, SentCount;
    OrderedFetch(m.h, Answer(m1, r).h, r);
    AnswerCounts(m.h.replies, r);
    assert Faithful(Answer(m1, r).h) by {
      FaithfulAnswer(m.h, r);
      SameAnswers(m.h.(replies := m.h.replies + [r]), Answer(m1, r).h);
    }
  }

  lemma SameAnswers(h: History, h': History)
    requires Faithful(h) && h.replies == h'.replies && h.all == h'.all
    ensures Faithful(h')
  {
  }

  /** The state of which a delivered instruction's slot is refilled. */
  function WithoutCurrent(m: Machine): Machine {
    Machine(m.core.(current := None, pending := false, sent := m.core.sent + 1), m.h.(current := None))
  }

  lemma RefillTaken(m: Machine, inst: Instruction)
    requires Agree(m)
    ensures var m' := Refill(WithoutCurrent(m), inst);
            && Agree(m') && (m'.core.current.None? ==> m'.core.queue == []) && (m'.core.current.Some? ==> m'.core.pending)
            && m'.core.sent == m.core.sent + 1
            && m'.h.all == m.h.all && m'.h.cleared == m.h.cleared && m'.h.replies == m.h.replies
            && AsSeq(m'.h.current) + m'.h.waiting == m.h.waiting
            && (m'.h.waiting == m.h.waiting || (m.h.waiting != [] && m'.h.waiting == m.h.waiting[1..]))
  {
    hide Refill, AsSeq;
    RefillSpec(WithoutCurrent(m), inst);
  }

  lemma FetchCurrentKeeps(m: Machine)
    requires Inv(m) && m.core.current.Some?
    ensures Inv(DoFetch(m))
  {
    var inst := m.core.current.value;
    assert DoFetch(m) == Answer(Refill(WithoutCurrent(m), inst), Sent(inst, m.h.current));
    hide DoFetch, WithoutCurrent, Refill, Answer, Ordered, Faithful, Flags, Agree, AsSeq;
    RefillTaken(m, inst);
    if m.h.current.Some? {
      CurrentIs(m);
    }
    AnswerKeeps(m, Refill(WithoutCurrent(m), inst), Sent(inst, m.h.current));
  }

  lemma CurrentIs(m: Machine)
    requires Agree(m) && m.h.current.Some?
    ensures m.h.current.value < |m.h.all| && m.core.current == Some(m.h.all[m.h.current.value])
  {
  }

  lemma PrepareSpec(m: Machine, ip: string)
    requires m.core.current.None? && m.core.queue == []
    ensures var m' := Prepare(m, ip);
            && m'.h == m.h && m'.core.queue == [] && m'.core.sent == m.core.sent
            && (m'.core.current.Some? ==> m'.core.pending)
  {
  }

  lemma FetchIdleKeeps(m: Machine)
    requires Inv(m) && m.core.current.None?
    ensures Inv(DoFetch(m))
  {
    hide Ordered, Faithful, Prepare, Generate, Flags, Agree;
    var c, h := m.core, m.h;
    NoCurrentNoWaiting(m);
    IdleQueue(m);
    assert AsSeq(h.current) + h.waiting == h.waiting;
    var (inst, index) := Generate(c, c.lastAgentIp);
    var m1 := m.(core := c.(index := index));
    var m2 := m.(core := c.(index := index, sent := c.sent + 1));
    if c.enabled && !IsEmpty(inst) {
      PrepareSpec(m2, inst.targetIp);
      IdleAgree(m, Prepare(m2, inst.targetIp));
      AnswerKeeps(m, Prepare(m2, inst.targetIp), Sent(inst, None));
    } else if c.enabled {
      IdleAgree(m, m1);
      AnswerKeeps(m, m1, Empty);
    } else {
      AnswerKeeps(m, m, Empty);
    }
  }

  lemma IdleAgree(m: Machine, m': Machine)
    requires Agree(m) && m.h.current.None? && m'.h == m.h && m'.core.queue == m.core.queue
    ensures Agree(m')
  {
  }

  lemma FetchKeeps(m: Machine)
    requires Inv(m)
    ensures Inv(DoFetch(m))
  {
    hide Inv, DoFetch;
    if m.core.current.Some? { FetchCurrentKeeps(m); } else { FetchIdleKeeps(m); }
  }

  lemma StepKeeps(m: Machine, step: Step)
    requires Inv(m)
    ensures Inv(Next(m, step))
  {
    match step
    case Queue(inst) => QueueKeeps(m, inst);
    case Clear => ClearKeeps(m);
    case Fetch => FetchKeeps(m);
    case _ => OtherKeeps(m, step);
  }

  lemma OtherKeeps(m: Machine, step: Step)
    requires Inv(m) && !step.Queue? && !step.Clear? && !step.Fetch?
    ensures Inv(Next(m, step))
  {
    hide Ordered, Before, TrimLeft, TrimRight;
  }

  lemma BootHolds()
    ensures Inv(BOOT)
  {
    assert Line(BOOT.h) == [];
  }

  /** Over any run: user instructions are delivered in the order in which they were queued,
      each at most once and unchanged; each is delivered, current, waiting or cleared, and
      only one of these; an empty current slot means an empty queue; a filled one is
      announced; the counter counts the non-empty replies. */
  lemma {:induction false} DeliveryOnEveryRun(steps: seq<Step>)
    ensures Inv(Run(BOOT, steps))
  {
    hide Inv, Next;
    if steps == [] {
      BootHolds();
    } else {
      var n := |steps| - 1;
      DeliveryOnEveryRun(steps[..n]);
      StepKeeps(Run(BOOT, steps[..n]), steps[n]);
    }
  }

  lemma InOrderAtMostOnce(steps: seq<Step>)
    ensures var h := Run(BOOT, steps).h;
            && Increasing(Delivered(h.replies)) && Faithful(h)
            && |h.all| == |Delivered(h.replies)| + |AsSeq(h.current)| + |h.waiting| + |h.cleared|
            && (forall id :: id in Delivered(h.replies) ==> id !in h.waiting && id !in h.cleared && h.current != Some(id))
  {
    DeliveryOnEveryRun(steps);
    hide Run, Agree, Flags, Faithful, Delivered;
    var h := Run(BOOT, steps).h;
    assert Increasing(Line(h)) && Partition(Line(h), h.cleared, |h.all|);
    hide Increasing;
    PartsApart(Delivered(h.replies), AsSeq(h.current), h.waiting);
    assert forall id :: id in Delivered(h.replies) ==> id in Line(h);
  }

  lemma PartsApart(a: seq<nat>, b: seq<nat>, c: seq<nat>)
    requires Increasing(a + b + c)
    ensures Increasing(a) && forall x :: x in a ==> x !in b && x !in c
  {
    var l := a + b + c;
    assert forall i :: 0 <= i < |a| ==> a[i] == l[i];
    assert forall i :: 0 <= i < |b| ==> b[i] == l[|a| + i];
    assert forall i :: 0 <= i < |c| ==> c[i] == l[|a| + |b| + i];
  }

  // ---------------------------------------------------------------- the cycle

  /** Steps of the agent. */
  predicate ByAgent(step: Step) {
    step.Fetch? || step.GetTask? || step.Report?
  }

  /** A pool that the generator goes round in order: no entry is empty, equal entries are
      followed by equal entries, and what is left of an entry in front of a slash is the entry
      itself or no entry. Any pool of distinct addresses without a prefix length is one. */
  ghost predicate InOrder(pool: seq<string>) {
    && |pool| >= 2
    && (forall i :: 0 <= i < |pool| ==> pool[i] != "")
    && SameNext(pool)
    && (forall i :: 0 <= i < |pool| ==> Before(pool[i], '/') == pool[i] || Before(pool[i], '/') !in pool)
  }

  /** The entry after this one, round the end. */
  function After(pool: seq<string>, i: nat): string
    requires i < |pool|
  {
    pool[(i + 1) % |pool|]
  }

  ghost predicate SameNext(pool: seq<string>) {
    forall i, j :: 0 <= i < |pool| && 0 <= j < |pool| && pool[i] == pool[j] ==> After(pool, i) == After(pool, j)
  }

  ghost predicate Distinct(pool: seq<string>) {
    forall i, j :: 0 <= i < j < |pool| ==> pool[i] != pool[j]
  }

  /** The instruction for the i-th address, counted round and round. */
  function At(pool: seq<string>, settings: Settings, i: nat): Instruction
    requires |pool| >= 2
  {
    MakeInstruction(pool[i % |pool|], settings)
  }

  lemma ModNext(i: nat, n: nat)
    requires n >= 2
    ensures (i % n + 1) % n == (i + 1) % n
  {
    var q, r := i / n, i % n;
    if r + 1 == n {
      assert i + 1 == n * (q + 1) + 0;
      ModOf(q + 1, 0, n);
      ModOf(1, 0, n);
    } else {
      ModOf(q, r + 1, n);
      ModOf(0, r + 1, n);
    }
  }

  /** From a place of the pool the generator moves to the next one, whether it is asked from
      the entry there or from the address in front of its slash. */
  lemma GenerateNext(c: Core, i: nat, ip: string)
    requires InOrder(c.pool) && c.index < |c.pool| && c.pool[c.index] == c.pool[i % |c.pool|]
    requires ip == c.pool[i % |c.pool|] || ip == Before(c.pool[i % |c.pool|], '/')
    ensures var (inst, index) := Generate(c, ip);
            inst == At(c.pool, c.settings, i + 1) && index < |c.pool| && c.pool[index] == c.pool[(i + 1) % |c.pool|]
  {
    hide Before;
    var place := i % |c.pool|;
    var from := StartIndex(c, ip);
    assert from < |c.pool| && c.pool[from] == c.pool[place];
    assert After(c.pool, from) == After(c.pool, place);
    ModNext(i, |c.pool|);
  }

  lemma AtIsGood(pool: seq<string>, settings: Settings, i: nat)
    requires InOrder(pool)
    ensures !IsEmpty(At(pool, settings, i)) && At(pool, settings, i).targetIp == pool[i % |pool|]
  {
  }

  /** The controller is k replies into a cycle that began at `start`. */
  ghost predicate Cycling(m0: Machine, m: Machine, start: nat, k: nat) {
    var c, n0 := m.core, |m0.h.replies|;
    && c.enabled && c.pool == m0.core.pool && c.settings == m0.core.settings
    && c.queue == [] && InOrder(c.pool)
    && c.index < |c.pool| && c.pool[c.index] == c.pool[(start + 1 + k) % |c.pool|]
    && c.current == Some(At(c.pool, c.settings, start + 1 + k))
    && |m.h.replies| == n0 + k
    && (forall j :: n0 <= j < n0 + k ==> m.h.replies[j] == Sent(At(c.pool, c.settings, start + 1 + (j - n0)), None))
    && m.h.current == None && m.h.waiting == []
  }

  lemma GenerateFirst(c: Core, ip: string)
    requires |c.pool| >= 2
    ensures Generate(c, ip) == (At(c.pool, c.settings, StartIndex(c, ip) + 1), (StartIndex(c, ip) + 1) % |c.pool|)
  {
  }

  lemma CycleStarts(m0: Machine)
    requires m0.core.enabled && m0.core.current == None && m0.core.queue == [] && InOrder(m0.core.pool)
    requires m0.h.current == None && m0.h.waiting == []
    ensures Cycling(m0, DoFetch(m0), StartIndex(m0.core, m0.core.lastAgentIp), 1)
  {
    hide Generate, At, StartIndex, IsEmpty, Before, SameNext;
    var c := m0.core;
    var s := StartIndex(c, c.lastAgentIp);
    var (inst, index) := Generate(c, c.lastAgentIp);
    GenerateFirst(c, c.lastAgentIp);
    AtIsGood(c.pool, c.settings, s + 1);
    AtIsGood(c.pool, c.settings, s + 1 + 1);
    var m2 := m0.(core := c.(index := index, sent := c.sent + 1));
    GenerateNext(m2.core, s + 1, inst.targetIp);
  }

  lemma CycleFetch(m0: Machine, m: Machine, start: nat, k: nat)
    requires Cycling(m0, m, start, k)
    ensures Cycling(m0, DoFetch(m), start, k + 1)
  {
    hide Generate, At, InOrder, IsEmpty, Before;
    var c := m.core;
    var inst := c.current.value;
    var taken := Machine(c.(current := None, pending := false, sent := c.sent + 1), m.h.(current := None));
    AtIsGood(c.pool, c.settings, start + 1 + k);
    AtIsGood(c.pool, c.settings, start + 1 + (k + 1));
    GenerateNext(taken.core, start + 1 + k, Before(inst.targetIp, '/'));
    assert start + 1 + k + 1 == start + 1 + (k + 1);
  }

  lemma CycleStep(m0: Machine, m: Machine, start: nat, k: nat, step: Step)
    requires Cycling(m0, m, start, k) && ByAgent(step)
    ensures Cycling(m0, Next(m, step), start, if step.Fetch? then k + 1 else k)
  {
    hide At, InOrder, Before, TrimLeft, TrimRight, DoFetch;
    if step.Fetch? {
      CycleFetch(m0, m, start, k);
    }
  }

  function Fetches(steps: seq<Step>): nat {
    if steps == [] then 0 else Fetches(steps[..|steps| - 1]) + (if steps[|steps| - 1].Fetch? then 1 else 0)
  }

  lemma RunLast(m: Machine, steps: seq<Step>)
    requires steps != []
    ensures Run(m, steps) == Next(Run(m, steps[..|steps| - 1]), steps[|steps| - 1])
    ensures Fetches(steps) == Fetches(steps[..|steps| - 1]) + (if steps[|steps| - 1].Fetch? then 1 else 0)
  {
  }

  lemma {:induction false} CycleRun(m0: Machine, steps: seq<Step>)
    requires m0.core.enabled && m0.core.current == None && m0.core.queue == [] && InOrder(m0.core.pool)
    requires m0.h.current == None && m0.h.waiting == []
    requires forall i :: 0 <= i < |steps| ==> ByAgent(steps[i])
    ensures Cycling(m0, Run(DoFetch(m0), steps), StartIndex(m0.core, m0.core.lastAgentIp), 1 + Fetches(steps))
  {
    hide Cycling, Next, DoFetch, StartIndex, InOrder, Run, Fetches;
    if steps == [] {
      CycleStarts(m0);
      RunNothing(DoFetch(m0));
    } else {
      var n := |steps| - 1;
      CycleRun(m0, steps[..n]);
      RunLast(DoFetch(m0), steps);
      CycleStep(m0, Run(DoFetch(m0), steps[..n]), StartIndex(m0.core, m0.core.lastAgentIp), 1 + Fetches(steps[..n]), steps[n]);
    }
  }

  lemma RunNothing(m: Machine)
    ensures Run(m, []) == m && Fetches([]) == 0
  {
  }

  /** The k-th reply after a first fetch: the address k places after the first one. */
  function CycleReply(c: Core, k: nat): Reply
    requires |c.pool| >= 2
  {
    Sent(At(c.pool, c.settings, StartIndex(c, c.lastAgentIp) + 1 + k), None)
  }

  lemma RoundRobinFrom(m0: Machine, after: seq<Step>, k: nat)
    requires Agree(m0) && Flags(m0) && m0.core.enabled && m0.core.current == None && InOrder(m0.core.pool)
    requires forall i :: 0 <= i < |after| ==> ByAgent(after[i])
    requires k <= Fetches(after)
    ensures var m := Run(DoFetch(m0), after);
            && |m.h.replies| == |m0.h.replies| + 1 + Fetches(after)
            && m.h.replies[|m0.h.replies| + k] == CycleReply(m0.core, k)
  {
    hide Run, DoFetch, StartIndex, Agree, Flags, Cycling, At;
    NoCurrentNoWaiting(m0);
    assert m0.core.queue == [] by { IdleQueue(m0); }
    CycleRun(m0, after);
    CyclingReply(m0, Run(DoFetch(m0), after), StartIndex(m0.core, m0.core.lastAgentIp), 1 + Fetches(after), k);
  }

  lemma IdleQueue(m: Machine)
    requires Flags(m) && m.core.current.None?
    ensures m.core.queue == []
  {
  }

  lemma CyclingReply(m0: Machine, m: Machine, start: nat, n: nat, k: nat)
    requires Cycling(m0, m, start, n) && k < n
    ensures |m0.core.pool| >= 2 && |m.h.replies| == |m0.h.replies| + n
    ensures m.h.replies[|m0.h.replies| + k] == Sent(At(m0.core.pool, m0.core.settings, start + 1 + k), None)
  {
    hide At;
    var j := |m0.h.replies| + k;
    assert start + 1 + (j - |m0.h.replies|) == start + 1 + k;
  }

  /** With nothing queued and a pool that can be gone round, the replies from a first fetch on
      go round the pool in order, whatever the agent reports in between. */
  lemma RoundRobin(before: seq<Step>, after: seq<Step>, k: nat)
    requires var c := Run(BOOT, before).core; c.enabled && c.current == None && InOrder(c.pool)
    requires forall i :: 0 <= i < |after| ==> ByAgent(after[i])
    requires k <= Fetches(after)
    ensures var m0 := Run(BOOT, before);
            var m := Run(DoFetch(m0), after);
            && |m.h.replies| == |m0.h.replies| + 1 + Fetches(after)
            && m.h.replies[|m0.h.replies| + k] == CycleReply(m0.core, k)
  {
    hide Run, DoFetch, CycleReply, InOrder;
    DeliveryOnEveryRun(before);
    RoundRobinFrom(Run(BOOT, before), after, k);
  }

  /** Any window of replies as long as the pool gives every address of the pool exactly once,
      whatever the agent reports in between. */
  lemma OncePerRound(before: seq<Step>, after: seq<Step>, from: nat, ip: string) returns (at: nat)
    requires var c := Run(BOOT, before).core; c.enabled && c.current == None && InOrder(c.pool) && Distinct(c.pool) && ip in c.pool
    requires forall i :: 0 <= i < |after| ==> ByAgent(after[i])
    requires from + |Run(BOOT, before).core.pool| <= 1 + Fetches(after)
    ensures var m0 := Run(BOOT, before);
            var n0, replies := |m0.h.replies|, Run(DoFetch(m0), after).h.replies;
            && |replies| == n0 + 1 + Fetches(after)
            && n0 + from <= at < n0 + from + |m0.core.pool|
            && replies[at] == Sent(MakeInstruction(ip, m0.core.settings), None)
            && forall i :: n0 + from <= i < n0 + from + |m0.core.pool| ==>
                 replies[i].Sent? && (replies[i].inst.targetIp == ip ==> i == at)
  {
    hide Run, DoFetch, CycleReply, StartIndex, SameNext;
    var m0 := Run(BOOT, before);
    var c := m0.core;
    var n0, start := |m0.h.replies|, StartIndex(c, c.lastAgentIp) + 1;
    var place := OneRemainder(|c.pool|, start + from, IndexOf(c.pool, ip));
    at := n0 + place - start;
    var replies := Run(DoFetch(m0), after).h.replies;
    RoundRobin(before, after, at - n0);
    CycleReplyIs(c, at - n0);
    forall i | n0 + from <= i < n0 + from + |c.pool|
      ensures replies[i].Sent? && (replies[i].inst.targetIp == ip ==> i == at)
    {
      RoundRobin(before, after, i - n0);
      CycleReplyIs(c, i - n0);
      if replies[i].inst.targetIp == ip {
        SamePlace(c.pool, (start + (i - n0)) % |c.pool|, IndexOf(c.pool, ip));
        OnlyRemainder(|c.pool|, place, start + (i - n0));
      }
    }
  }

  lemma SamePlace(pool: seq<string>, a: nat, b: nat)
    requires Distinct(pool) && a < |pool| && b < |pool| && pool[a] == pool[b]
    ensures a == b
  {
  }

  lemma CycleReplyIs(c: Core, k: nat)
    requires |c.pool| >= 2
    ensures CycleReply(c, k) == Sent(MakeInstruction(c.pool[(StartIndex(c, c.lastAgentIp) + 1 + k) % |c.pool|], c.settings), None)
  {
  }

  /** The entry at a place counted round and round. */
  function Entry(pool: seq<string>, i: nat): (r: string)
    requires |pool| >= 2
    ensures r in pool
  {
    pool[i % |pool|]
  }

  lemma ReplyIsEntry(c: Core, k: nat)
    requires |c.pool| >= 2
    ensures CycleReply(c, k) == Sent(MakeInstruction(Entry(c.pool, StartIndex(c, c.lastAgentIp) + 1 + k), c.settings), None)
  {
  }

  function Targets(replies: seq<Reply>): seq<string> {
    seq(|replies|, i requires 0 <= i < |replies| => if replies[i].Sent? then replies[i].inst.targetIp else "")
  }

  /** The pool read from some place on, once round. */
  lemma Rotation(pool: seq<string>, from: nat, s: seq<string>)
    requires |pool| >= 2 && |s| == |pool| && forall t :: 0 <= t < |s| ==> s[t] == Entry(pool, from + t)
    ensures multiset(s) == multiset(pool)
  {
    var n, r := |pool|, from % |pool|;
    forall t | 0 <= t < n
      ensures s[t] == (pool[r..] + pool[..r])[t]
    {
      PlaceAfter(from, t, n);
    }
    assert s == pool[r..] + pool[..r] && pool == pool[..r] + pool[r..];
  }

  lemma PlaceAfter(from: nat, t: nat, n: nat)
    requires t < n
    ensures (from + t) % n == if from % n + t < n then from % n + t else from % n + t - n
  {
    var q, r := from / n, from % n;
    assert from == n * q + r;
    if r + t < n {
      ModOf(q, r + t, n);
    } else {
      assert from + t == n * (q + 1) + (r + t - n);
      ModOf(q + 1, r + t - n, n);
    }
  }

  /** Also with repeated entries, any window of replies as long as the pool gives every entry
      as often as the pool has it. */
  lemma AsOftenAsListed(before: seq<Step>, after: seq<Step>, from: nat)
    requires var c := Run(BOOT, before).core; c.enabled && c.current == None && InOrder(c.pool)
    requires forall i :: 0 <= i < |after| ==> ByAgent(after[i])
    requires from + |Run(BOOT, before).core.pool| <= 1 + Fetches(after)
    ensures var m0 := Run(BOOT, before);
            var n0, n, replies := |m0.h.replies|, |m0.core.pool|, Run(DoFetch(m0), after).h.replies;
            n0 + from + n <= |replies| && multiset(Targets(replies[n0 + from..n0 + from + n])) == multiset(m0.core.pool)
  {
    hide *;
    var m0 := Run(BOOT, before);
    var start := StartIndex(m0.core, m0.core.lastAgentIp) + 1;
    RoundRobin(before, after, 0);
    InOrderSize(m0.core.pool);
    var n0, n, replies := |m0.h.replies|, |m0.core.pool|, Run(DoFetch(m0), after).h.replies;
    forall i | n0 + from <= i < n0 + from + n
      ensures replies[i] == Sent(MakeInstruction(Entry(m0.core.pool, start + (i - n0)), m0.core.settings), None)
    {
      RoundRobin(before, after, i - n0);
      ReplyIsEntry(m0.core, i - n0);
    }
    WindowTargets(replies, n0 + from, m0.core.pool, start + from, m0.core.settings);
  }

  lemma InOrderSize(pool: seq<string>)
    requires InOrder(pool)
    ensures |pool| >= 2
  {
  }

  lemma WindowTargets(replies: seq<Reply>, at: nat, pool: seq<string>, place: nat, settings: Settings)
    requires |pool| >= 2 && at + |pool| <= |replies|
    requires forall i :: at <= i < at + |pool| ==> replies[i] == Sent(MakeInstruction(Entry(pool, place + (i - at)), settings), None)
    ensures multiset(Targets(replies[at..at + |pool|])) == multiset(pool)
  {
    hide Entry;
    var window := replies[at..at + |pool|];
    forall t | 0 <= t < |pool|
      ensures Targets(window)[t] == Entry(pool, place + t)
    {
      assert window[t] == replies[at + t];
    }
    Rotation(pool, place, Targets(window));
  }

  // ---------------------------------------------------------------- from the text of a report to the next address

  /** The part in front of the first separator. */
  lemma {:induction false} FirstPart(a: string, sep: char, tail: string)
    requires sep !in a && (tail == "" || tail[0] == sep)
    ensures Before(a + tail, sep) == a
  {
    if a == "" {
      assert a + tail == tail;
    } else {
      assert (a + tail)[1..] == a[1..] + tail;
      FirstPart(a[1..], sep, tail);
      assert a[0] in a;
    }
  }

  lemma {:induction false} TrimmedLeftIs(left: string, rest: string)
    requires Blanks(left) && (rest == "" || !Blank(rest[0]))
    ensures TrimLeft(left + rest) == rest
  {
    if left == "" {
      assert left + rest == rest;
    } else {
      assert (left + rest)[1..] == left[1..] + rest;
      TrimmedLeftIs(left[1..], rest);
    }
  }

  lemma {:induction false} TrimmedRightIs(front: string, right: string)
    requires Blanks(right) && (front == "" || !Blank(front[|front| - 1]))
    ensures TrimRight(front + right) == front
  {
    if right == "" {
      assert front + right == front;
    } else {
      var n := |right| - 1;
      assert (front + right)[..|front| + n] == front + right[..n];
      TrimmedRightIs(front, right[..n]);
    }
  }

  /** What is left without the blanks at both ends. */
  lemma TrimmedIs(left: string, ip: string, right: string)
    requires Blanks(left) && Blanks(right) && (ip == "" || (!Blank(ip[0]) && !Blank(ip[|ip| - 1])))
    ensures TrimRight(TrimLeft(left + ip + right)) == ip
  {
    if ip == "" {
      assert left + ip + right == left + right + "";
      TrimmedLeftIs(left + right, "");
      TrimmedRightIs("", "");
    } else {
      assert left + ip + right == left + (ip + right);
      TrimmedLeftIs(left, ip + right);
      TrimmedRightIs(ip, right);
    }
  }

  /** What a report leaves as the agent's address: the first entry of the list without the blanks
      around it. */
  lemma Remembered(m: Machine, left: string, ip: string, right: string, tail: string)
    requires Blanks(left) && Blanks(right) && (ip == "" || (!Blank(ip[0]) && !Blank(ip[|ip| - 1])))
    requires ',' !in left + ip + right && (tail == "" || tail[0] == ',') && left + ip + right + tail != ""
    ensures Next(m, Report(left + ip + right + tail)) == m.(core := m.core.(lastAgentIp := ip))
  {
    var all := left + ip + right;
    FirstPart(all, ',', tail);
    TrimmedIs(left, ip, right);
    hide Before, TrimLeft, TrimRight, Blanks, Blank;
  }

  lemma EmptyReport(m: Machine)
    ensures Next(m, Report("")) == m
  {
  }

  /** A delivered instruction is followed by the next one of the user's, if one waits, whatever
      the cycle would have to say. */
  lemma UserGoesFirst(m: Machine)
    requires Agree(m) && m.core.current.Some? && m.core.queue != []
    ensures var c, h := DoFetch(m).core, DoFetch(m).h;
            && c.current == Some(m.core.queue[0]) && c.queue == m.core.queue[1..] && c.index == m.core.index
            && h.current == Some(m.h.waiting[0]) && h.waiting == m.h.waiting[1..]
  {
  }

  /** An entry of the pool and the place where it is listed first. */
  ghost predicate FirstPlace(pool: seq<string>, ip: string, i: nat) {
    i < |pool| && pool[i] == ip && forall j :: 0 <= j < i ==> pool[j] != ip
  }

  lemma {:induction false} IndexIsFirst(pool: seq<string>, ip: string)
    ensures IndexOf(pool, ip) >= 0 ==> FirstPlace(pool, ip, IndexOf(pool, ip))
  {
    if pool != [] && pool[0] != ip {
      IndexIsFirst(pool[1..], ip);
      assert forall j :: 0 < j < |pool| ==> pool[j] == pool[1..][j - 1];
    }
  }

  lemma FoundAt(c: Core, ip: string, i: nat)
    requires FirstPlace(c.pool, ip, i)
    ensures StartIndex(c, ip) == i
  {
    hide IndexOf;
    IndexIsFirst(c.pool, ip);
    assert c.pool[i] in c.pool;
  }

  /** An idle cycle answers with the entry after the agent's address, under all the settings of
      the generator. */
  lemma IdleNext(m: Machine, i: nat)
    requires var c := m.core; c.enabled && c.current == None && |c.pool| >= 2 && FirstPlace(c.pool, c.lastAgentIp, i) && After(c.pool, i) != ""
    ensures var c, chosen := m.core, m.core.settings;
            DoFetch(m).h.replies == m.h.replies +
              [Sent(Instruction("", After(c.pool, i), chosen.gateway, chosen.mode, chosen.activeTime, chosen.agingTime, chosen.prefix), None)]
  {
    FoundAt(m.core, m.core.lastAgentIp, i);
    hide StartIndex, Prepare;
    RefillReplies(m);
    GenerateFirst(m.core, m.core.lastAgentIp);
  }

  /** When nothing is current, a report that begins with an entry of the pool is answered with the
      entry after it, under all the settings of the generator. */
  lemma ReportedNext(m: Machine, left: string, ip: string, right: string, tail: string, i: nat)
    requires Blanks(left) && Blanks(right) && ip != "" && !Blank(ip[0]) && !Blank(ip[|ip| - 1])
    requires ',' !in left + ip + right && (tail == "" || tail[0] == ',')
    requires var c := m.core; c.enabled && c.current == None && |c.pool| >= 2 && FirstPlace(c.pool, ip, i) && After(c.pool, i) != ""
    ensures var c, m' := m.core, DoFetch(Next(m, Report(left + ip + right + tail)));
            var chosen := c.settings;
            m'.h.replies == m.h.replies +
              [Sent(Instruction("", After(c.pool, i), chosen.gateway, chosen.mode, chosen.activeTime, chosen.agingTime, chosen.prefix), None)]
  {
    hide DoFetch, Next, FirstPlace, After;
    Remembered(m, left, ip, right, tail);
    IdleNext(m.(core := m.core.(lastAgentIp := ip)), i);
  }

  /** When an instruction is delivered and nothing is queued, the cycle goes on behind the address
      in front of the slash of what was delivered. */
  lemma DeliveredNext(m: Machine, i: nat, ip: string, tail: string)
    requires '/' !in ip && (tail == "" || tail[0] == '/')
    requires var c := m.core;
             && c.enabled && c.current.Some? && c.current.value.targetIp == ip + tail && c.queue == []
             && |c.pool| >= 2 && FirstPlace(c.pool, ip, i) && After(c.pool, i) != ""
    ensures var c, chosen := m.core, m.core.settings;
            DoFetch(m).core.current ==
              Some(Instruction("", After(c.pool, i), chosen.gateway, chosen.mode, chosen.activeTime, chosen.agingTime, chosen.prefix))
  {
    FirstPart(ip, '/', tail);
    FoundAt(WithoutCurrent(m).core, ip, i);
    hide Before, StartIndex, FirstPlace;
    GenerateFirst(WithoutCurrent(m).core, ip);
  }

  /** What the replies of a cycle are, with all their fields, and where it starts: behind the
      agent's address if that is in the pool, and behind the last place otherwise. */
  lemma CycleReplyMeans(c: Core, k: nat) returns (place: nat)
    requires |c.pool| >= 2
    ensures if c.lastAgentIp in c.pool then FirstPlace(c.pool, c.lastAgentIp, place) else place == c.index
    ensures CycleReply(c, k) ==
              Sent(Instruction("", c.pool[(place + 1 + k) % |c.pool|], c.settings.gateway, c.settings.mode,
                               c.settings.activeTime, c.settings.agingTime, c.settings.prefix), None)
  {
    place := StartIndex(c, c.lastAgentIp);
    IndexIsFirst(c.pool, c.lastAgentIp);
    CycleReplyIs(c, k);
  }

  /** Exactly when a fetch gets nothing. */
  lemma EmptyReplyIff(m: Machine)
    requires forall i :: 0 <= i < |m.core.pool| ==> m.core.pool[i] != ""
    ensures DoFetch(m).h.replies == m.h.replies + [Empty] <==>
            m.core.current == None && (!m.core.enabled || |m.core.pool| < 2)
  {
    hide Refill, Prepare, StartIndex, Before;
    var r := DoFetch(m).h.replies;
    RefillReplies(m);
    assert |r| == |m.h.replies| + 1 && r[..|m.h.replies|] == m.h.replies;
    assert r == m.h.replies + [Empty] <==> r[|m.h.replies|] == Empty;
  }

  lemma RefillReplies(m: Machine)
    ensures forall m1: Machine, inst :: Refill(m1, inst).h.replies == m1.h.replies
    ensures forall m1: Machine, ip :: Prepare(m1, ip).h == m1.h
  {
    hide Generate, Before;
  }

  /** The cycle is on with a pool that suffices, and a task is announced. */
  ghost predicate Announcing(m: Machine) {
    m.core.enabled && |m.core.pool| >= 2 && (forall i :: 0 <= i < |m.core.pool| ==> m.core.pool[i] != "") && m.core.pending
  }

  lemma FetchAnnounces(m: Machine)
    requires Announcing(m)
    ensures Announcing(DoFetch(m))
  {
    hide StartIndex, Before;
  }

  /** From switching the cycle on with at least two addresses, a task is announced however often
      the agent fetches and whatever it reports. */
  lemma {:induction false} AnnouncedThroughout(m: Machine, after: seq<Step>)
    requires |m.core.pool| >= 2 && forall i :: 0 <= i < |m.core.pool| ==> m.core.pool[i] != ""
    requires forall i :: 0 <= i < |after| ==> ByAgent(after[i])
    ensures Announcing(Run(Next(m, Enable(true)), after))
  {
    hide DoFetch, Before, TrimLeft, TrimRight;
    if after != [] {
      var n := |after| - 1;
      AnnouncedThroughout(m, after[..n]);
      if after[n].Fetch? {
        FetchAnnounces(Run(Next(m, Enable(true)), after[..n]));
      }
    }
  }

  /** Switching it on with fewer, or off, announces nothing new. */
  lemma SwitchAnnounces(m: Machine, on: bool)
    ensures var m' := Next(m, Enable(on));
            && m' == m.(core := m.core.(enabled := on, pending := m'.core.pending))
            && (m'.core.pending <==> m.core.pending || (on && |m.core.pool| >= 2))
  {
  }

  lemma {:induction false} RunConcat(m: Machine, xs: seq<Step>, ys: seq<Step>)
    ensures Run(m, xs + ys) == Run(Run(m, xs), ys)
    decreases |ys|
  {
    hide Next;
    if ys == [] {
      assert xs + ys == xs;
    } else {
      var n := |ys| - 1;
      RunConcat(m, xs, ys[..n]);
      assert (xs + ys)[..|xs + ys| - 1] == xs + ys[..n];
    }
  }

  lemma StepKeepsCleared(m: Machine, step: Step)
    ensures forall id :: id in m.h.cleared ==> id in Next(m, step).h.cleared
  {
    hide Generate, Before, TrimLeft, TrimRight;
  }

  lemma {:induction false} RunKeepsCleared(m: Machine, steps: seq<Step>)
    ensures forall id :: id in m.h.cleared ==> id in Run(m, steps).h.cleared
  {
    hide Next;
    if steps != [] {
      RunKeepsCleared(m, steps[..|steps| - 1]);
      StepKeepsCleared(Run(m, steps[..|steps| - 1]), steps[|steps| - 1]);
    }
  }

  /** Clearing empties the queue for good: what waited then is never delivered, whatever happens
      later; what was current still is. */
  lemma ClearedNever(before: seq<Step>, after: seq<Step>, id: nat)
    requires id in Run(BOOT, before).h.waiting
    ensures var m := Run(BOOT, before);
            && DoClear(m).core == m.core.(queue := []) && DoClear(m).h.current == m.h.current
            && id !in Delivered(Run(DoClear(m), after).h.replies)
  {
    var m := Run(BOOT, before);
    assert id in DoClear(m).h.cleared;
    RunKeepsCleared(DoClear(m), after);
    var steps := before + [Clear] + after;
    RunConcat(BOOT, before + [Clear], after);
    assert (before + [Clear])[..|before|] == before;
    assert Run(BOOT, before + [Clear]) == DoClear(m);
    DeliveryOnEveryRun(steps);
    hide Run, DoClear, Delivered;
    NotInBoth(Run(DoClear(m), after).h, id);
  }

  lemma NotInBoth(h: History, id: nat)
    requires Ordered(h) && id in h.cleared
    ensures id !in Delivered(h.replies)
  {
    hide Delivered, Increasing;
    assert id in Delivered(h.replies) ==> id in Line(h);
  }

  // ---------------------------------------------------------------- which pools can be gone round

  /** Ready for a first fetch: the cycle is on and nothing is current. */
  ghost predicate Idle(m: Machine, pool: seq<string>) {
    Agree(m) && Flags(m) && m.core.enabled && m.core.current == None && m.core.pool == pool
  }

  ghost predicate AllByAgent(steps: seq<Step>) {
    forall i :: 0 <= i < |steps| ==> ByAgent(steps[i])
  }

  ghost predicate InTurn(m0: Machine, after: seq<Step>, k: nat)
    requires |m0.core.pool| >= 2
  {
    var m := Run(DoFetch(m0), after);
    |m.h.replies| == |m0.h.replies| + 1 + Fetches(after) && k <= Fetches(after) &&
    m.h.replies[|m0.h.replies| + k] == CycleReply(m0.core, k)
  }

  /** From every idle state and whatever the agent does, all replies come in turn. */
  ghost predicate GoesRound(pool: seq<string>)
    requires |pool| >= 2
  {
    forall m0, after, k: nat :: Idle(m0, pool) && AllByAgent(after) && k <= Fetches(after) ==> InTurn(m0, after, k)
  }

  /** Some text is not in a list. */
  lemma LongerThanAll(pool: seq<string>) returns (s: string)
    ensures forall i :: 0 <= i < |pool| ==> |pool[i]| < |s|
    ensures s !in pool
  {
    if pool == [] {
      s := "";
    } else {
      s := LongerThanAll(pool[1..]);
      if |pool[0]| >= |s| {
        s := seq(|pool[0]| + 1, _ => 'x');
      }
    }
    assert forall i :: 0 < i < |pool| ==> pool[i] == pool[1..][i - 1];
  }

  /** An idle state whose generator stands at a given place. */
  lemma IdleAt(pool: seq<string>, start: nat) returns (m0: Machine)
    requires |pool| >= 2
    ensures Idle(m0, pool) && StartIndex(m0.core, m0.core.lastAgentIp) == start && m0.h.replies == []
    ensures m0.core.pool == pool && m0.core.queue == [] && m0.h.current == None && m0.h.waiting == []
  {
    var ip := LongerThanAll(pool);
    m0 := Machine(BOOT.core.(enabled := true, pool := pool, index := start, lastAgentIp := ip), BOOT.h);
    assert IndexOf(pool, ip) == -1;
  }

  /** The first reply, for any pool: the generator then goes on from the first entry equal to
      the one it sent. */
  lemma FirstReply(m0: Machine, x: nat, y: nat)
    requires m0.core.enabled && m0.core.current == None && m0.core.queue == [] && m0.h.current == None
    requires var pool := m0.core.pool;
             && |pool| >= 2 && (forall i :: 0 <= i < |pool| ==> pool[i] != "")
             && x == (StartIndex(m0.core, m0.core.lastAgentIp) + 1) % |pool| && y == (IndexOf(pool, pool[x]) + 1) % |pool|
    ensures var m, c := DoFetch(m0), m0.core;
            && m.h == m0.h.(replies := m0.h.replies + [Sent(MakeInstruction(c.pool[x], c.settings), None)])
            && m.core == c.(index := y, current := Some(MakeInstruction(c.pool[y], c.settings)), pending := true, sent := c.sent + 1)
  {
    hide StartIndex, IndexOf;
    var c := m0.core;
    GenerateFirst(c, c.lastAgentIp);
    var c' := c.(index := x, sent := c.sent + 1);
    GenerateFirst(c', c.pool[x]);
    assert StartIndex(c', c.pool[x]) == IndexOf(c.pool, c.pool[x]) by { StartsAtEntry(c', x); }
  }

  lemma StartsAtEntry(c: Core, x: nat)
    requires x < |c.pool|
    ensures StartIndex(c, c.pool[x]) == IndexOf(c.pool, c.pool[x])
  {
    assert c.pool[x] in c.pool;
  }

  /** A later reply: the generator goes on from the first entry equal to the address in front
      of the slash, or from its place if there is none. */
  lemma LaterReply(m: Machine, y: nat, z: nat)
    requires m.core.enabled && m.core.queue == [] && m.h.current == None
    requires var c := m.core;
             && |c.pool| >= 2 && (forall i :: 0 <= i < |c.pool| ==> c.pool[i] != "")
             && y < |c.pool| && c.current == Some(MakeInstruction(c.pool[y], c.settings)) && c.index == y
             && z == (StartIndex(c, Before(c.pool[y], '/')) + 1) % |c.pool|
    ensures var m', c := DoFetch(m), m.core;
            && m'.h == m.h.(replies := m.h.replies + [Sent(MakeInstruction(c.pool[y], c.settings), None)])
            && m'.core == c.(index := z, current := Some(MakeInstruction(c.pool[z], c.settings)), pending := true, sent := c.sent + 1)
  {
    hide StartIndex, IndexOf, Before;
    var c := m.core;
    var ip := Before(c.pool[y], '/');
    var taken := c.(current := None, pending := false, sent := c.sent + 1);
    GenerateFirst(taken, ip);
    assert StartIndex(taken, ip) == StartIndex(c, ip) by { SameStart(taken, c, ip); }
  }

  lemma SameStart(c: Core, c': Core, ip: string)
    requires c.pool == c'.pool && c.index == c'.index
    ensures StartIndex(c, ip) == StartIndex(c', ip)
  {
  }

  lemma RunFetches(m: Machine)
    ensures Run(m, []) == m && Run(m, [Fetch]) == DoFetch(m) && Run(m, [Fetch, Fetch]) == DoFetch(DoFetch(m))
    ensures Fetches([]) == 0 && Fetches([Fetch]) == 1 && Fetches([Fetch, Fetch]) == 2
  {
    hide DoFetch;
    assert [Fetch][..0] == [] && [Fetch, Fetch][..1] == [Fetch];
  }

  /** A window of turns beginning just before place i. */
  lemma Round(i: nat, n: nat)
    requires i < n
    ensures i % n == (i + n) % n == (i + 2 * n) % n == i
  {
    ModOf(0, i, n);
    ModOf(1, i, n);
    ModOf(2, i, n);
  }

  lemma RoundNeedsEntries(pool: seq<string>, i: nat)
    requires |pool| >= 2 && GoesRound(pool) && i < |pool|
    ensures pool[i] != ""
  {
    var n := |pool|;
    var m0 := IdleAt(pool, i + n - 1);
    assert Fetches([]) == 0 && AllByAgent([]);
    assert InTurn(m0, [], 0);
    Round(i, n);
    hide Agree, Flags, GoesRound;
    RunNothing(DoFetch(m0));
    GenerateFirst(m0.core, m0.core.lastAgentIp);
    hide Generate, StartIndex;
  }

  /** The first three replies from an idle state, for any pool of non-empty entries. */
  lemma ThreeReplies(m0: Machine, start: nat) returns (third: string)
    requires var pool := m0.core.pool;
             && Idle(m0, pool) && m0.core.queue == [] && m0.h.current == None && m0.h.replies == []
             && |pool| >= 2 && (forall i :: 0 <= i < |pool| ==> pool[i] != "") && StartIndex(m0.core, m0.core.lastAgentIp) == start
    ensures var pool := m0.core.pool;
            var second := After(pool, IndexOf(pool, Entry(pool, start + 1)));
            var from := IndexOf(pool, Before(second, '/'));
            var replies := Run(DoFetch(m0), [Fetch, Fetch]).h.replies;
            && |replies| == 3
            && replies[1] == Sent(MakeInstruction(second, m0.core.settings), None)
            && replies[2] == Sent(MakeInstruction(third, m0.core.settings), None)
            && (from >= 0 ==> third == After(pool, from))
  {
    hide Before, IndexOf, DoFetch, Agree, Flags;
    var pool, n := m0.core.pool, |m0.core.pool|;
    var x := (start + 1) % n;
    var y := (IndexOf(pool, pool[x]) + 1) % n;
    FirstReply(m0, x, y);
    var m1 := DoFetch(m0);
    var z := (StartIndex(m1.core, Before(pool[y], '/')) + 1) % n;
    third := pool[z];
    LaterReply(m1, y, z);
    var m2 := DoFetch(m1);
    LaterReply(m2, z, (StartIndex(m2.core, Before(pool[z], '/')) + 1) % n);
    RunFetches(m1);
  }

  lemma TakesTurns(m0: Machine, pool: seq<string>, k: nat)
    requires |pool| >= 2 && GoesRound(pool) && Idle(m0, pool) && k <= 2
    ensures InTurn(m0, [Fetch, Fetch], k)
  {
    hide Idle, InTurn;
    RunFetches(m0);
    assert AllByAgent([Fetch, Fetch]);
  }

  lemma TurnIs(m0: Machine, pool: seq<string>, k: nat)
    requires |pool| >= 2 && GoesRound(pool) && Idle(m0, pool) && m0.h.replies == [] && k <= 2
    ensures var replies := Run(DoFetch(m0), [Fetch, Fetch]).h.replies;
            && k < |replies|
            && replies[k] == Sent(MakeInstruction(Entry(pool, StartIndex(m0.core, m0.core.lastAgentIp) + 1 + k), m0.core.settings), None)
  {
    hide GoesRound, Agree, Flags, Run, DoFetch, CycleReply, StartIndex, Entry, Fetches;
    TakesTurns(m0, pool, k);
    ReplyIsEntry(m0.core, k);
  }

  /** What the second and the third reply require. */
  lemma RoundTurns(pool: seq<string>, start: nat)
    requires |pool| >= 2 && GoesRound(pool) && forall i :: 0 <= i < |pool| ==> pool[i] != ""
    ensures var second := After(pool, IndexOf(pool, Entry(pool, start + 1)));
            var from := IndexOf(pool, Before(second, '/'));
            second == Entry(pool, start + 2) && (from >= 0 ==> After(pool, from) == Entry(pool, start + 3))
  {
    hide *;
    var m0 := IdleAt(pool, start);
    var third := ThreeReplies(m0, start);
    TurnIs(m0, pool, 1);
    TurnIs(m0, pool, 2);
    assert start + 1 + 1 == start + 2 && start + 1 + 2 == start + 3;
    SameTarget(After(pool, IndexOf(pool, Entry(pool, start + 1))), Entry(pool, start + 2), m0.core.settings);
    SameTarget(third, Entry(pool, start + 3), m0.core.settings);
  }

  lemma SameTarget(a: string, b: string, settings: Settings)
    requires MakeInstruction(a, settings) == MakeInstruction(b, settings)
    ensures a == b
  {
  }

  /** If equal entries are followed by equal ones, then so they are from then on. */
  lemma {:induction false} NextsAgree(pool: seq<string>, a: nat, b: nat, t: nat)
    requires |pool| >= 2 && SameNext(pool) && Entry(pool, a) == Entry(pool, b)
    ensures Entry(pool, a + t) == Entry(pool, b + t)
  {
    hide Entry, SameNext;
    if t > 0 {
      NextsAgree(pool, a, b, t - 1);
      NextEntry(pool, a + (t - 1), b + (t - 1));
      assert a + (t - 1) + 1 == a + t && b + (t - 1) + 1 == b + t;
    }
  }

  lemma NextEntry(pool: seq<string>, a: nat, b: nat)
    requires |pool| >= 2 && SameNext(pool) && Entry(pool, a) == Entry(pool, b)
    ensures Entry(pool, a + 1) == Entry(pool, b + 1)
  {
    AfterIsEntry(pool, a);
    AfterIsEntry(pool, b);
    hide After;
  }

  lemma AfterIsEntry(pool: seq<string>, a: nat)
    requires |pool| >= 2
    ensures After(pool, a % |pool|) == Entry(pool, a + 1)
  {
    ModNext(a, |pool|);
  }

  lemma EntryRound(pool: seq<string>, i: nat)
    requires |pool| >= 2 && i < |pool|
    ensures Entry(pool, i + |pool|) == Entry(pool, i + 2 * |pool|) == pool[i]
    ensures After(pool, i) == Entry(pool, i + 1) == Entry(pool, i + |pool| + 1) == Entry(pool, i + 2 * |pool| + 1)
  {
    var n := |pool|;
    Round(i, n);
    assert Entry(pool, i + n) == Entry(pool, i + 2 * n) == pool[i];
    hide Entry, After;
    AfterIsEntry(pool, i);
    AfterIsEntry(pool, i + n);
    AfterIsEntry(pool, i + 2 * n);
  }

  /** Then different entries are followed by different ones: going on for a whole round would
      lead back to the entries themselves. */
  lemma NextDetermines(pool: seq<string>, i: nat, j: nat)
    requires |pool| >= 2 && SameNext(pool) && i < |pool| && j < |pool| && After(pool, i) == After(pool, j)
    ensures pool[i] == pool[j]
  {
    hide Entry, After, SameNext;
    var n := |pool|;
    EntryRound(pool, i);
    EntryRound(pool, j);
    NextsAgree(pool, i + 1, j + 1, n - 1);
    assert i + 1 + (n - 1) == i + n && j + 1 + (n - 1) == j + n;
  }

  lemma RoundNeedsSameNext(pool: seq<string>)
    requires |pool| >= 2 && GoesRound(pool) && forall i :: 0 <= i < |pool| ==> pool[i] != ""
    ensures SameNext(pool)
  {
    var n := |pool|;
    forall i | 0 <= i < n
      ensures After(pool, i) == After(pool, IndexOf(pool, pool[i]))
    {
      assert pool[i] in pool;
      hide GoesRound, Entry, After, IndexOf, Before;
      RoundTurns(pool, i + n - 1);
      EntryRound(pool, i);
      assert i + n - 1 + 1 == i + n && i + n - 1 + 2 == i + n + 1;
    }
  }

  lemma RoundNeedsPlainEntries(pool: seq<string>, i: nat)
    requires |pool| >= 2 && GoesRound(pool) && SameNext(pool) && i < |pool|
    requires forall j :: 0 <= j < |pool| ==> pool[j] != ""
    ensures Before(pool[i], '/') == pool[i] || Before(pool[i], '/') !in pool
  {
    hide GoesRound, Before, Entry, IndexOf, SameNext;
    var n := |pool|;
    var start := i + 2 * n - 2;
    assert start + 2 == i + 2 * n && start + 3 == i + 2 * n + 1;
    RoundTurns(pool, start);
    EntryRound(pool, i);
    var from := IndexOf(pool, Before(pool[i], '/'));
    if from >= 0 {
      assert After(pool, from) == After(pool, i);
      NextDetermines(pool, from, i);
    }
  }

  lemma RoundNeedsInOrder(pool: seq<string>)
    requires |pool| >= 2 && GoesRound(pool)
    ensures InOrder(pool)
  {
    hide GoesRound, SameNext, Before;
    forall i | 0 <= i < |pool|
      ensures pool[i] != ""
    {
      RoundNeedsEntries(pool, i);
    }
    RoundNeedsSameNext(pool);
    forall i | 0 <= i < |pool|
      ensures Before(pool[i], '/') == pool[i] || Before(pool[i], '/') !in pool
    {
      RoundNeedsPlainEntries(pool, i);
    }
  }

  lemma InOrderGoesRound(pool: seq<string>)
    requires |pool| >= 2 && InOrder(pool)
    ensures GoesRound(pool)
  {
    hide InOrder, Agree, Flags, Run, DoFetch, CycleReply, Fetches;
    forall m0, after, k: nat | Idle(m0, pool) && AllByAgent(after) && k <= Fetches(after)
      ensures InTurn(m0, after, k)
    {
      RoundRobinFrom(m0, after, k);
    }
  }

  /** Exactly which pools are gone round in order, from every idle state and whatever the agent
      reports. */
  lemma RoundRobinIff(pool: seq<string>)
    requires |pool| >= 2
    ensures GoesRound(pool) <==> InOrder(pool)
  {
    hide GoesRound, InOrder;
    if GoesRound(pool) {
      RoundNeedsInOrder(pool);
    }
    if InOrder(pool) {
      InOrderGoesRound(pool);
    }
  }

  // ---------------------------------------------------------------- a pool with an entry that is never reached

  /** The cycle over a, b, a, c moves between a and b. */
  ghost predicate Stuck(m: Machine, a: string, b: string, c: string) {
    && m.core.enabled && m.core.pool == [a, b, a, c] && m.core.queue == [] && m.h.current == None
    && (m.core.current == None ==> m.core.index == 0)
    && (m.core.current.Some? ==> m.core.current.value.targetIp in {a, b})
    && forall r :: r in m.h.replies ==> r.Sent? && r.inst.targetIp in {a, b}
  }

  lemma BeforeNothing(s: string)
    requires '/' !in s
    ensures Before(s, '/') == s
  {
  }

  lemma Places(a: string, b: string, c: string)
    requires a != b && b != c && a != c
    ensures IndexOf([a, b, a, c], a) == 0 && IndexOf([a, b, a, c], b) == 1 && IndexOf([a, b, a, c], c) == 3
  {
    var pool := [a, b, a, c];
    assert pool[1..] == [b, a, c] && pool[1..][1..] == [a, c] && pool[1..][1..][1..] == [c];
  }

  lemma StuckGenerates(core: Core, ip: string, a: string, b: string, c: string)
    requires core.pool == [a, b, a, c] && a != b && b != c && a != c && (core.index == 0 || ip in {a, b})
    ensures Generate(core, ip).0.targetIp in {a, b}
    ensures ip in {a, b} ==> Generate(core, ip).0.targetIp != ip
  {
    hide IndexOf;
    Places(a, b, c);
    assert IndexOf(core.pool, ip) >= 0 ==> core.pool[IndexOf(core.pool, ip)] == ip;
  }

  lemma StuckFetch(m: Machine, a: string, b: string, c: string)
    requires Stuck(m, a, b, c) && a != b && b != c && a != c && "" !in {a, b, c}
    requires Before(a, '/') == a && Before(b, '/') == b
    ensures Stuck(DoFetch(m), a, b, c)
  {
    hide Generate, Before;
    if m.core.current.Some? {
      var ip := m.core.current.value.targetIp;
      var taken := m.core.(current := None, pending := false, sent := m.core.sent + 1);
      StuckGenerates(taken, ip, a, b, c);
    } else {
      StuckGenerates(m.core, m.core.lastAgentIp, a, b, c);
      var (inst, index) := Generate(m.core, m.core.lastAgentIp);
      StuckGenerates(m.core.(index := index, sent := m.core.sent + 1), inst.targetIp, a, b, c);
    }
  }

  lemma {:induction false} StuckRun(m: Machine, after: seq<Step>, a: string, b: string, c: string)
    requires Stuck(m, a, b, c) && a != b && b != c && a != c && "" !in {a, b, c}
    requires Before(a, '/') == a && Before(b, '/') == b
    requires forall i :: 0 <= i < |after| ==> ByAgent(after[i])
    ensures Stuck(Run(m, after), a, b, c)
  {
    hide DoFetch, Before, TrimLeft, TrimRight;
    if after != [] {
      var n := |after| - 1;
      StuckRun(m, after[..n], a, b, c);
      if after[n].Fetch? {
        StuckFetch(Run(m, after[..n]), a, b, c);
      }
    }
  }

  /** With an address listed twice, as in a, b, a, c, the cycle never gets to c, whatever the
      agent reports and however often it asks. */
  lemma NeverReached(a: string, b: string, c: string, after: seq<Step>)
    requires a != b && b != c && a != c && "" !in {a, b, c} && '/' !in a && '/' !in b
    requires forall i :: 0 <= i < |after| ==> ByAgent(after[i])
    ensures var m := Run(Run(BOOT, [SetPool([a, b, a, c]), Enable(true)]), after);
            forall r :: r in m.h.replies ==> r.Sent? && r.inst.targetIp in {a, b}
  {
    BeforeNothing(a);
    BeforeNothing(b);
    var steps := [SetPool([a, b, a, c]), Enable(true)];
    assert steps[..1] == [steps[0]] && steps[..1][..0] == [];
    var m := Next(BOOT, steps[0]);
    assert Run(BOOT, steps[..1]) == m;
    assert Run(BOOT, steps) == Next(m, steps[1]);
    StuckRun(Run(BOOT, steps), after, a, b, c);
  }

  // ---------------------------------------------------------------- the objects

  class CycleStrategy {
    var enabled: bool
    var ipPool: seq<string>
    var settings: Settings
    var currentIndex: nat

    constructor ()
      ensures !enabled && ipPool == [] && settings == Settings("", 1, 30, 2, 24) && currentIndex == 0
    {
      enabled, ipPool, settings, currentIndex := false, [], Settings("", 1, 30, 2, 24), 0;
    }

    method NextInstruction(currentAgentIp: string, ghost c: Core) returns (inst: Instruction)
      requires c.pool == ipPool && c.settings == settings && c.index == currentIndex
      modifies this`currentIndex
      ensures (inst, currentIndex) == Generate(c, currentAgentIp)
    {
      if |ipPool| < 2 {
        return NO_INSTRUCTION;
      }
      var startIdx := IndexOf(ipPool, currentAgentIp);
      if startIdx < 0 {
        startIdx := currentIndex;
      }
      var nextIdx := (startIdx + 1) % |ipPool|;
      currentIndex := nextIdx;
      inst := Instruction("", ipPool[nextIdx], settings.gateway, settings.mode, settings.activeTime, settings.agingTime, settings.prefix);
    }
  }

  class MockServer {
    var instructionQueue: seq<Instruction>
    var currentInstruction: Instruction
    var hasCurrentInstruction: bool
    var ipJumpTaskPending: bool
    var lastAgentIp: string
    var totalJumpsSent: nat
    const cycleStrategy: CycleStrategy
    ghost var h: History

    ghost function Fields(): Core reads this, cycleStrategy {
      Core(instructionQueue, if hasCurrentInstruction then Some(currentInstruction) else None, ipJumpTaskPending,
           cycleStrategy.enabled, cycleStrategy.ipPool, cycleStrategy.settings, cycleStrategy.currentIndex,
           lastAgentIp, totalJumpsSent)
    }

    ghost function View(): Machine reads this, cycleStrategy {
      Machine(Fields(), h)
    }

    constructor ()
      ensures View() == BOOT && fresh(cycleStrategy)
    {
      instructionQueue, currentInstruction, hasCurrentInstruction := [], NO_INSTRUCTION, false;
      ipJumpTaskPending, lastAgentIp, totalJumpsSent := false, "", 0;
      cycleStrategy := new CycleStrategy();
      h := BOOT.h;
    }

    method QueueInstruction(inst: Instruction)
      modifies this
      ensures View() == Next(old(View()), Queue(inst))
    {
      h := h.(all := h.all + [inst], waiting := h.waiting + [|h.all|]);
      instructionQueue := instructionQueue + [inst];
      if !hasCurrentInstruction && instructionQueue != [] {
        currentInstruction, instructionQueue := instructionQueue[0], instructionQueue[1..];
        hasCurrentInstruction := true;
        h := h.(current := Some(h.waiting[0]), waiting := h.waiting[1..]);
      }
      if hasCurrentInstruction {
        ipJumpTaskPending := true;
      }
    }

    method ClearQueue()
      modifies this
      ensures View() == Next(old(View()), Clear)
    {
      instructionQueue := [];
      h := h.(waiting := [], cleared := h.cleared + h.waiting);
    }

    method SetCycle(on: bool)
      modifies this`ipJumpTaskPending, cycleStrategy`enabled
      ensures View() == Next(old(View()), Enable(on))
    {
      cycleStrategy.enabled := on;
      if on && |cycleStrategy.ipPool| >= 2 {
        ipJumpTaskPending := true;
      }
    }

    /** A task is announced whenever an instruction waits. */
    method HandleGetTask() returns (taskList: seq<int>)
      requires Flags(View())
      ensures taskList == if ipJumpTaskPending then [37] else []
      ensures hasCurrentInstruction || instructionQueue != [] ==> taskList == [37]
    {
      taskList := if ipJumpTaskPending then [37] else [];
    }

    method HandleReport(ips: string)
      modifies this`lastAgentIp
      ensures View() == Next(old(View()), Report(ips))
    {
      hide Before, TrimLeft, TrimRight;
      if ips != "" {
        lastAgentIp := TrimRight(TrimLeft(Before(ips, ',')));
      }
    }

    method Install(next: Instruction)
      modifies this`currentInstruction, this`hasCurrentInstruction, this`ipJumpTaskPending
      ensures if IsEmpty(next) then Fields() == old(Fields()) else Fields() == old(Fields()).(current := Some(next), pending := true)
    {
      if !IsEmpty(next) {
        currentInstruction, hasCurrentInstruction, ipJumpTaskPending := next, true, true;
      }
    }

    /** The generator's next instruction becomes the current one, if there is one. */
    method PrepareNext(ip: string)
      modifies this`currentInstruction, this`hasCurrentInstruction, this`ipJumpTaskPending, cycleStrategy`currentIndex
      ensures View() == Prepare(old(View()), ip)
    {
      var next := cycleStrategy.NextInstruction(ip, Fields());
      Install(next);
    }

    /** The slot of a delivered instruction is filled again. */
    method TakeNext(inst: Instruction)
      requires !hasCurrentInstruction
      modifies this`instructionQueue, this`currentInstruction, this`hasCurrentInstruction, this`ipJumpTaskPending, this`h, cycleStrategy`currentIndex
      ensures View() == Refill(old(View()), inst)
      ensures h.replies == old(h).replies
    {
      hide Prepare, Generate;
      if instructionQueue != [] {
        currentInstruction, instructionQueue := instructionQueue[0], instructionQueue[1..];
        hasCurrentInstruction, ipJumpTaskPending := true, true;
        if h.waiting != [] {
          h := h.(current := Some(h.waiting[0]), waiting := h.waiting[1..]);
        }
      } else if cycleStrategy.enabled {
        PrepareNext(Before(inst.targetIp, '/'));
      }
    }

    /** What is returned is what the history records. */
    method HandleGetIpJump() returns (r: Option<Instruction>)
      modifies this, cycleStrategy`currentIndex
      ensures View() == Next(old(View()), Fetch)
      ensures |h.replies| == |old(h).replies| + 1
      ensures r == match h.replies[|old(h).replies|] case Sent(inst, _) => Some(inst) case Empty => None
    {
      hide Refill, Prepare, Generate;
      if hasCurrentInstruction {
        var inst := currentInstruction;
        ghost var id := h.current;
        currentInstruction, hasCurrentInstruction, ipJumpTaskPending := NO_INSTRUCTION, false, false;
        totalJumpsSent := totalJumpsSent + 1;
        h := h.(current := None);
        TakeNext(inst);
        r := Some(inst);
        h := h.(replies := h.replies + [Sent(inst, id)]);
        return;
      }
      if cycleStrategy.enabled {
        var inst := cycleStrategy.NextInstruction(lastAgentIp, Fields());
        if !IsEmpty(inst) {
          totalJumpsSent := totalJumpsSent + 1;
          PrepareNext(inst.targetIp);
          r := Some(inst);
          h := h.(replies := h.replies + [Sent(inst, None)]);
          return;
        }
      }
      r := None;
      h := h.(replies := h.replies + [Empty]);
    }
  }
}
