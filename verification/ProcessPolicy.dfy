/** The process hash lists mirrored into the kernel by add and delete commands
    (crates/process_mgr/src/policy_mgr.rs). The kernel is the replay of the commands
    written so far. */
module ProcessPolicy {

  type Hash = string

  datatype Colour = White | Black {
    function Other(): Colour { if this == White then Black else White }
  }

  /** `h=0` and `h=1` add to the white and the black table, `del 0 h` and `del 1 h`
      remove from them. */
  datatype Command = Add(c: Colour, h: Hash) | Del(c: Colour, h: Hash)

  datatype Kernel = Kernel(white: set<Hash>, black: set<Hash>)

  const EMPTY: Kernel := Kernel({}, {})

  /** The tables seen from one colour. */
  function From(c: Colour, mine: set<Hash>, other: set<Hash>): Kernel {
    if c == White then Kernel(mine, other) else Kernel(other, mine)
  }

  function Side(k: Kernel, c: Colour): set<Hash> {
    if c == White then k.white else k.black
  }

  predicate Disjoint(k: Kernel) {
    k.white !! k.black
  }

  function Apply(k: Kernel, cmd: Command): Kernel {
    match cmd
    case Add(White, h) => Kernel(k.white + {h}, k.black)
    case Add(Black, h) => Kernel(k.white, k.black + {h})
    case Del(White, h) => Kernel(k.white - {h}, k.black)
    case Del(Black, h) => Kernel(k.white, k.black - {h})
  }

  function Replay(k: Kernel, cmds: seq<Command>): Kernel {
    if cmds == [] then k else Apply(Replay(k, cmds[..|cmds| - 1]), cmds[|cmds| - 1])
  }

  /** Along the whole replay no hash is ever in both tables, and no command is wasted:
      each one changes the tables. */
  ghost predicate Sound(k: Kernel, cmds: seq<Command>) {
    cmds == [] ||
    var rest := cmds[..|cmds| - 1];
    Sound(k, rest) && Disjoint(Replay(k, cmds)) && Replay(k, cmds) != Replay(k, rest)
  }

  lemma Snoc(k: Kernel, cmds: seq<Command>, cmd: Command)
    requires Sound(k, cmds)
    ensures Replay(k, cmds + [cmd]) == Apply(Replay(k, cmds), cmd)
    ensures Disjoint(Apply(Replay(k, cmds), cmd)) && Apply(Replay(k, cmds), cmd) != Replay(k, cmds) ==> Sound(k, cmds + [cmd])
  {
    assert (cmds + [cmd])[..|cmds|] == cmds;
  }

  lemma {:induction false} Concat(k: Kernel, xs: seq<Command>, ys: seq<Command>)
    requires Sound(k, xs) && Sound(Replay(k, xs), ys)
    ensures Replay(k, xs + ys) == Replay(Replay(k, xs), ys) && Sound(k, xs + ys)
    decreases |ys|
  {
    if ys == [] {
      assert xs + ys == xs;
    } else {
      var rest := ys[..|ys| - 1];
      Concat(k, xs, rest);
      assert xs + ys == (xs + rest) + [ys[|ys| - 1]];
      Snoc(k, xs + rest, ys[|ys| - 1]);
    }
  }

  // One command, seen from a colour.

  lemma DelOther(k: Kernel, cmds: seq<Command>, c: Colour, mine: set<Hash>, other: set<Hash>, h: Hash)
    requires Sound(k, cmds) && Replay(k, cmds) == From(c, mine, other) && mine !! other && h in other
    ensures var cmds' := cmds + [Del(c.Other(), h)];
            Sound(k, cmds') && Replay(k, cmds') == From(c, mine, other - {h})
  {
    Snoc(k, cmds, Del(c.Other(), h));
  }

  lemma AddMine(k: Kernel, cmds: seq<Command>, c: Colour, mine: set<Hash>, other: set<Hash>, h: Hash)
    requires Sound(k, cmds) && Replay(k, cmds) == From(c, mine, other) && mine !! other && h !in mine && h !in other
    ensures var cmds' := cmds + [Add(c, h)];
            Sound(k, cmds') && Replay(k, cmds') == From(c, mine + {h}, other)
  {
    Snoc(k, cmds, Add(c, h));
  }

  lemma DelMine(k: Kernel, cmds: seq<Command>, c: Colour, mine: set<Hash>, other: set<Hash>, h: Hash)
    requires Sound(k, cmds) && Replay(k, cmds) == From(c, mine, other) && mine !! other && h in mine
    ensures var cmds' := cmds + [Del(c, h)];
            Sound(k, cmds') && Replay(k, cmds') == From(c, mine - {h}, other)
  {
    Snoc(k, cmds, Del(c, h));
  }

  // Counting the visited elements of a set that are outside or inside another.

  ghost function Outside(all: set<Hash>, todo: set<Hash>, s: set<Hash>): nat { |(all - todo) - s| }
  ghost function Inside(all: set<Hash>, todo: set<Hash>, s: set<Hash>): nat { |(all - todo) * s| }

  lemma Visit(all: set<Hash>, todo: set<Hash>, path: Hash, s: set<Hash>)
    requires todo <= all && path in todo
    ensures Outside(all, todo - {path}, s) == Outside(all, todo, s) + (if path in s then 0 else 1)
    ensures Inside(all, todo - {path}, s) == Inside(all, todo, s) + (if path in s then 1 else 0)
  {
    var done := all - todo;
    assert all - (todo - {path}) == done + {path};
    AddOutside(done, path, s);
    AddInside(done, path, s);
  }

  lemma AddOutside(done: set<Hash>, path: Hash, s: set<Hash>)
    requires path !in done
    ensures |(done + {path}) - s| == |done - s| + (if path in s then 0 else 1)
  {
    if path in s {
      assert (done + {path}) - s == done - s;
    } else {
      assert (done + {path}) - s == (done - s) + {path};
    }
  }

  lemma AddInside(done: set<Hash>, path: Hash, s: set<Hash>)
    requires path !in done
    ensures |(done + {path}) * s| == |done * s| + (if path in s then 1 else 0)
  {
    if path in s {
      assert (done + {path}) * s == (done * s) + {path};
    } else {
      assert (done + {path}) * s == done * s;
    }
  }

  lemma VisitEnds(all: set<Hash>, s: set<Hash>)
    ensures Outside(all, all, s) == 0 && Inside(all, all, s) == 0
    ensures Outside(all, {}, s) == |all - s| && Inside(all, {}, s) == |all * s|
  {
    assert all - all == {} && all - {} == all && {} - s == {} && {} * s == {};
  }

  // ---------------------------------------------------------------- the three loops

  /** First loop: take the new list off the other table, and off its record. */
  method RemoveFromOther(c: Colour, list: set<Hash>, mine: set<Hash>, prev: set<Hash>)
    returns (cmds: seq<Command>, other: set<Hash>)
    requires mine !! prev
    ensures other == prev - list
    ensures Sound(From(c, mine, prev), cmds) && Replay(From(c, mine, prev), cmds) == From(c, mine, other)
    ensures |cmds| == |list * prev|
  {
    hide Sound, Replay, From, Outside, Inside;
    ghost var k := From(c, mine, prev);
    StartSound(k);
    cmds, other := [], prev;
    var todo := list;
    VisitEnds(list, prev);
    while todo != {}
      invariant todo <= list
      invariant other == prev - (list - todo) && |cmds| == Inside(list, todo, prev)
      invariant Sound(k, cmds) && Replay(k, cmds) == From(c, mine, other)
      decreases todo
    {
      var path :| path in todo;
      Visit(list, todo, path, prev);
      todo := todo - {path};
      if path in other {
        DelOther(k, cmds, c, mine, other, path);
        cmds := cmds + [Del(c.Other(), path)];
        other := other - {path};
      }
    }
  }

  /** Second loop: add what is new. The record is not touched yet. */
  method AddMissing(c: Colour, list: set<Hash>, prev: set<Hash>, other: set<Hash>) returns (cmds: seq<Command>)
    requires prev !! other && list !! other
    ensures Sound(From(c, prev, other), cmds) && Replay(From(c, prev, other), cmds) == From(c, prev + list, other)
    ensures |cmds| == |list - prev|
  {
    hide Sound, Replay, From, Outside, Inside;
    ghost var k := From(c, prev, other);
    StartSound(k);
    cmds := [];
    var todo := list;
    ghost var mine := prev;
    VisitEnds(list, prev);
    while todo != {}
      invariant todo <= list
      invariant mine == prev + (list - todo) && |cmds| == Outside(list, todo, prev)
      invariant Sound(k, cmds) && Replay(k, cmds) == From(c, mine, other)
      decreases todo
    {
      var path :| path in todo;
      Visit(list, todo, path, prev);
      todo := todo - {path};
      if path !in prev {
        AddMine(k, cmds, c, mine, other, path);
        cmds := cmds + [Add(c, path)];
        mine := mine + {path};
      }
    }
    assert mine == prev + list;
  }

  /** Third loop: delete what is no longer listed. */
  method DropStale(c: Colour, list: set<Hash>, prev: set<Hash>, other: set<Hash>) returns (cmds: seq<Command>)
    requires prev !! other && list !! other
    ensures Sound(From(c, prev + list, other), cmds) && Replay(From(c, prev + list, other), cmds) == From(c, list, other)
    ensures |cmds| == |prev - list|
  {
    hide Sound, Replay, From, Outside, Inside;
    ghost var k := From(c, prev + list, other);
    StartSound(k);
    cmds := [];
    var todo := prev;
    ghost var mine := prev + list;
    VisitEnds(prev, list);
    while todo != {}
      invariant todo <= prev
      invariant mine == todo + list && |cmds| == Outside(prev, todo, list)
      invariant Sound(k, cmds) && Replay(k, cmds) == From(c, mine, other)
      decreases todo
    {
      var path :| path in todo;
      Visit(prev, todo, path, list);
      todo := todo - {path};
      if path !in list {
        DelMine(k, cmds, c, mine, other, path);
        cmds := cmds + [Del(c, path)];
        mine := mine - {path};
      }
    }
    assert mine == list;
  }

  lemma StartSound(k: Kernel)
    ensures Sound(k, []) && Replay(k, []) == k
  {
  }

  // ---------------------------------------------------------------- the manager

  function ToSet(list: seq<Hash>): set<Hash> {
    set h | h in list
  }

  /** The tables after a download of one colour: that list exactly, and nothing of it left
      on the other side. */
  function Installed(k: Kernel, c: Colour, list: set<Hash>): Kernel {
    From(c, list, Side(k, c.Other()) - list)
  }

  /** How many commands a download takes: one per difference. */
  function Cost(k: Kernel, c: Colour, list: set<Hash>): nat {
    |list * Side(k, c.Other())| + |list - Side(k, c)| + |Side(k, c) - list|
  }

  /** A download: which list, and its hashes. */
  datatype Download = Download(c: Colour, list: seq<Hash>)

  /** The tables after a sequence of downloads. */
  function Run(k: Kernel, ds: seq<Download>): Kernel {
    if ds == [] then k
    else
      var last := ds[|ds| - 1];
      Installed(Run(k, ds[..|ds| - 1]), last.c, ToSet(last.list))
  }

  /** The i-th download put the hash on its side and no later one changed that: later ones
      are of the other colour and do not list it. */
  ghost predicate Decides(ds: seq<Download>, i: int, c: Colour, h: Hash) {
    && 0 <= i < |ds| && ds[i].c == c && h in ds[i].list
    && forall j :: i < j < |ds| ==> ds[j].c != c && h !in ds[j].list
  }

  /** Over any sequence of downloads a hash is in a table exactly when some download
      decided so. */
  lemma {:induction false} InTableIff(ds: seq<Download>, c: Colour, h: Hash)
    ensures h in Side(Run(EMPTY, ds), c) <==> exists i :: Decides(ds, i, c, h)
    decreases |ds|
  {
    if ds != [] {
      var n := |ds| - 1;
      var rest := ds[..n];
      InTableIff(rest, c, h);
      if ds[n].c == c {
        if h in ds[n].list {
          assert Decides(ds, n, c, h);
        }
        forall i | Decides(ds, i, c, h)
          ensures i == n
        {
        }
      } else {
        forall i | Decides(ds, i, c, h)
          ensures Decides(rest, i, c, h) && h !in ds[n].list
        {
          assert i != n;
        }
        if h !in ds[n].list {
          forall i | Decides(rest, i, c, h)
            ensures Decides(ds, i, c, h)
          {
          }
        }
      }
    }
  }

  /** No hash is ever on both sides. */
  lemma {:induction false} RunDisjoint(ds: seq<Download>)
    ensures Disjoint(Run(EMPTY, ds))
    decreases |ds|
  {
    if ds != [] {
      RunDisjoint(ds[..|ds| - 1]);
    }
  }

  /** Repeating a download costs nothing. */
  lemma RepeatIsFree(k: Kernel, c: Colour, list: set<Hash>)
    ensures Cost(Installed(k, c, list), c, list) == 0
  {
    var k' := Installed(k, c, list);
    assert list * Side(k', c.Other()) == {} && list - Side(k', c) == {} && Side(k', c) - list == {};
  }

  class ProcessPolicyManager {
    var whiteSet: set<Hash>
    var blackSet: set<Hash>
    var prevWhiteSet: set<Hash>
    var prevBlackSet: set<Hash>
    const runProcessMode: bool
    var log: seq<Command>
    var notified: nat

    constructor (runProcessMode: bool)
      ensures Valid() && log == [] && notified == 0 && Mirror() == EMPTY
    {
      this.runProcessMode := runProcessMode;
      whiteSet, blackSet, prevWhiteSet, prevBlackSet := {}, {}, {}, {};
      log, notified := [], 0;
    }

    ghost function Mirror(): Kernel reads this {
      Kernel(prevWhiteSet, prevBlackSet)
    }

    /** The manager's record is what the kernel holds, and the whole history is sound. */
    ghost predicate Valid() reads this {
      && Replay(EMPTY, log) == Mirror()
      && Disjoint(Mirror())
      && Sound(EMPTY, log)
    }

    /** A download of one list. The kernel ends with exactly that list on its side and
        without it on the other; the number of commands is the number of differences; the
        kernel is told exactly if there was one. */
    method SetPolicyProcess(processList: seq<Hash>, isWhite: bool)
      requires Valid()
      modifies this
      ensures Valid()
      ensures var c := if isWhite then White else Black;
              && Mirror() == Installed(old(Mirror()), c, ToSet(processList))
              && old(log) <= log
              && |log| == |old(log)| + Cost(old(Mirror()), c, ToSet(processList))
      ensures notified == old(notified) + (if log != old(log) then 1 else 0)
    {
      hide Sound, Replay;
      var list := ToSet(processList);
      if isWhite {
        whiteSet := list;
        var cmds, black := Sync(White, whiteSet, prevWhiteSet, prevBlackSet);
        log := log + cmds;
        prevBlackSet := black;
        if cmds != [] {
          prevWhiteSet := whiteSet;
          notified := notified + 1;
        }
        assert Mirror() == Kernel(list, black);
      } else {
        blackSet := list;
        var cmds, white := Sync(Black, blackSet, prevBlackSet, prevWhiteSet);
        log := log + cmds;
        prevWhiteSet := white;
        if cmds != [] {
          prevBlackSet := blackSet;
          notified := notified + 1;
        }
        assert Mirror() == Kernel(white, list);
      }
    }

    /** Any sequence of downloads. */
    method SetAll(ds: seq<Download>)
      requires Valid() && Mirror() == EMPTY
      modifies this
      ensures Valid() && Mirror() == Run(EMPTY, ds)
    {
      for i := 0 to |ds|
        invariant Valid() && Mirror() == Run(EMPTY, ds[..i])
      {
        assert ds[..i + 1][..i] == ds[..i];
        SetPolicyProcess(ds[i].list, ds[i].c == White);
      }
      assert ds[..|ds|] == ds;
    }

    /** The three loops in order; what they write goes to the kernel as it is produced. */
    method Sync(c: Colour, list: set<Hash>, prev: set<Hash>, prevOther: set<Hash>)
      returns (cmds: seq<Command>, other: set<Hash>)
      requires Valid() && Mirror() == From(c, prev, prevOther)
      ensures other == prevOther - list
      ensures Sound(EMPTY, log + cmds) && Replay(EMPTY, log + cmds) == From(c, list, other)
      ensures |cmds| == |list * prevOther| + |list - prev| + |prev - list|
      ensures cmds == [] ==> prev == list
    {
      hide Sound, Replay;
      var cmds1, cmds2, cmds3;
      cmds1, other := RemoveFromOther(c, list, prev, prevOther);
      Concat(EMPTY, log, cmds1);
      cmds2 := AddMissing(c, list, prev, other);
      Concat(EMPTY, log + cmds1, cmds2);
      cmds3 := DropStale(c, list, prev, other);
      Concat(EMPTY, log + cmds1 + cmds2, cmds3);
      cmds := cmds1 + cmds2 + cmds3;
      assert log + cmds == log + cmds1 + cmds2 + cmds3;
      if cmds == [] {
        assert list - prev == {} && prev - list == {};
      }
    }
  }
}
