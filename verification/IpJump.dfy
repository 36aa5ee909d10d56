/** The address jump and the ledger of secondary addresses
    (crates/rules_jump_mgr/src/ip_manager.rs).

    The interfaces are a set of (interface, address) pairs and at most one default gateway per
    interface. What a command reports and
    what it does are both left open: a command may fail and still have taken effect, a
    deletion may succeed without effect, and a look at an interface may answer anything.
    The answers are parameters, so a statement for all answers is a statement for every
    way in which commands can fail. A jump and a cleanup round are atomic steps. */
module IpJump {
  import opened Common

  type Iface = string
  type Ip = string
  type Gateway = string

  datatype Key = Key(iface: Iface, ip: Ip)

  const AGING_TICKS: nat := 2

  datatype Entry = Entry(key: Key, prefix: nat, addedTick: U64)

  /** `last` is the address most recently added as a jump target. */
  datatype State = State(addrs: set<Key>, routes: map<Iface, Gateway>, ledger: seq<Entry>, tick: U64, last: Option<Key>)

  // ---------------------------------------------------------------- commands

  /** What a command reports and whether it took effect. */
  datatype Cmd = Cmd(ok: bool, effect: bool)

  function Delete(addrs: set<Key>, key: Key, c: Cmd): set<Key> {
    if c.effect then addrs - {key} else addrs
  }

  /** An addition that reports success took effect. */
  function Insert(addrs: set<Key>, key: Key, c: Cmd): set<Key> {
    if c.ok || c.effect then addrs + {key} else addrs
  }

  /** The answers met while replacing the default route of an interface. */
  datatype Rerouting = Rerouting(del: Cmd, add: Cmd)

  function SetRoute(routes: map<Iface, Gateway>, iface: Iface, gw: Gateway, r: Rerouting): map<Iface, Gateway> {
    var cleared := if r.del.effect then routes - {iface} else routes;
    if r.add.ok || r.add.effect then cleared[iface := gw] else cleared
  }

  /** The answers met while removing one address: is it there, delete with prefix, is it
      still there, delete without prefix, is it still there. */
  datatype Removal = Removal(before: bool, first: Cmd, afterFirst: bool, second: Cmd, afterSecond: bool)

  function TryRemove(addrs: set<Key>, key: Key, r: Removal): (bool, set<Key>) {
    if !r.before then (true, addrs)
    else
      var addrs1 := Delete(addrs, key, r.first);
      if r.first.ok && !r.afterFirst then (true, addrs1)
      else (r.second.ok && !r.afterSecond, Delete(addrs1, key, r.second))
  }

  lemma TryRemoveTouchesOne(addrs: set<Key>, key: Key, r: Removal)
    ensures addrs - {key} <= TryRemove(addrs, key, r).1 <= addrs
  {
  }

  /** A removal reports success: nothing to do, or a deletion that worked and a look that does
      not see the address any more. */
  predicate Reported(r: Removal) {
    !r.before || (r.first.ok && !r.afterFirst) || (r.second.ok && !r.afterSecond)
  }

  /** A removal takes its address off: the address was seen, and the first deletion had an effect
      or the second was needed and had one. */
  predicate TakesOff(r: Removal) {
    r.before && (r.first.effect || (!(r.first.ok && !r.afterFirst) && r.second.effect))
  }

  lemma TryRemoveIs(addrs: set<Key>, key: Key, r: Removal)
    ensures TryRemove(addrs, key, r) == (Reported(r), if TakesOff(r) then addrs - {key} else addrs)
  {
    assert addrs - {key} - {key} == addrs - {key};
  }

  /** The answers to the looks are the truth. */
  ghost predicate Honest(addrs: set<Key>, key: Key, r: Removal) {
    var addrs1 := Delete(addrs, key, r.first);
    && r.before == (key in addrs)
    && r.afterFirst == (key in addrs1)
    && r.afterSecond == (key in Delete(addrs1, key, r.second))
  }

  /** With honest looks a removal that reports success removed the address. */
  lemma RemovedMeansGone(addrs: set<Key>, key: Key, r: Removal)
    requires Honest(addrs, key, r) && TryRemove(addrs, key, r).0
    ensures key !in TryRemove(addrs, key, r).1
  {
  }

  // ---------------------------------------------------------------- the primary address

  datatype Line = Line(ip: Ip, secondary: bool)

  ghost predicate IsPrimary(lines: seq<Line>, ip: Ip) {
    Line(ip, false) in lines
  }

  /** The address a jump starts from: the requested one if it is a primary address, else
      the first primary address. */
  ghost function EffectiveSource(lines: seq<Line>, requested: Ip): Option<Ip> {
    if IsPrimary(lines, requested) then Some(requested) else FirstPrimary(lines)
  }

  ghost function FirstPrimary(lines: seq<Line>): Option<Ip> {
    if lines == [] then None
    else
      var early := FirstPrimary(lines[..|lines| - 1]);
      if early.Some? || lines[|lines| - 1].secondary then early else Some(lines[|lines| - 1].ip)
  }

  lemma {:induction false} FirstPrimaryIs(lines: seq<Line>)
    ensures FirstPrimary(lines).None? ==> forall i :: 0 <= i < |lines| ==> lines[i].secondary
    ensures FirstPrimary(lines).Some? ==>
              exists i :: 0 <= i < |lines| && lines[i] == Line(FirstPrimary(lines).value, false) &&
                          forall j :: 0 <= j < i ==> lines[j].secondary
  {
    if lines != [] {
      var n := |lines| - 1;
      FirstPrimaryIs(lines[..n]);
      if FirstPrimary(lines[..n]).Some? {
        var i :| 0 <= i < n && lines[..n][i] == Line(FirstPrimary(lines).value, false) &&
                 forall j :: 0 <= j < i ==> lines[..n][j].secondary;
        assert lines[i] == lines[..n][i];
        assert forall j :: 0 <= j < i ==> lines[j] == lines[..n][j];
      } else {
        assert forall j :: 0 <= j < n ==> lines[j] == lines[..n][j];
      }
    }
  }

  /** The scan with its three flags computes just that. */
  method GetPrimaryIp(lines: seq<Line>, requested: Ip) returns (r: Option<Ip>)
    ensures r == EffectiveSource(lines, requested)
    ensures Line(requested, false) in lines ==> r == Some(requested)
    ensures Line(requested, false) !in lines && r.Some? ==>
              exists i :: 0 <= i < |lines| && lines[i] == Line(r.value, false) && forall j :: 0 <= j < i ==> lines[j].secondary
    ensures r.None? ==> forall i :: 0 <= i < |lines| ==> lines[i].secondary
  {
    FirstPrimaryIs(lines);
    var primaryIp: Option<Ip> := None;
    var found, foundSecondary := false, false;
    for i := 0 to |lines|
      invariant found <==> Line(requested, false) in lines[..i] || Line(requested, true) in lines[..i]
      invariant foundSecondary <==> Line(requested, true) in lines[..i]
      invariant primaryIp == EffectiveSource(lines[..i], requested)
      invariant primaryIp.Some? ==> IsPrimary(lines[..i], primaryIp.value)
    {
      assert lines[..i + 1] == lines[..i] + [lines[i]] && lines[..i + 1][..i] == lines[..i];
      var line := lines[i];
      if line.ip == requested {
        found := true;
        if line.secondary {
          foundSecondary := true;
        } else {
          primaryIp := Some(line.ip);
        }
      }
      if !line.secondary && primaryIp == None {
        primaryIp := Some(line.ip);
      }
    }
    assert lines[..|lines|] == lines;
    if found {
      if foundSecondary {
        if primaryIp.Some? {
          return primaryIp;
        }
      } else {
        return Some(requested);
      }
    }
    r := primaryIp;
  }

  // ---------------------------------------------------------------- the ledger

  function Keys(ledger: seq<Entry>): set<Key> {
    set e | e in ledger :: e.key
  }

  ghost predicate NoDuplicates(ledger: seq<Entry>) {
    forall i, j :: 0 <= i < j < |ledger| ==> ledger[i].key != ledger[j].key
  }

  function Without(ledger: seq<Entry>, key: Key): (r: seq<Entry>)
    ensures forall e :: e in r <==> e in ledger && e.key != key
  {
    if ledger == [] then []
    else
      var rest := Without(ledger[1..], key);
      if ledger[0].key == key then rest else [ledger[0]] + rest
  }

  lemma {:induction false} WithoutKeeps(ledger: seq<Entry>, key: Key)
    requires NoDuplicates(ledger)
    ensures NoDuplicates(Without(ledger, key)) && Keys(Without(ledger, key)) == Keys(ledger) - {key}
  {
    if ledger != [] {
      var rest := ledger[1..];
      WithoutKeeps(rest, key);
      assert forall e :: e in Without(rest, key) ==> e in rest;
      assert forall e :: e in rest ==> e.key != ledger[0].key;
    }
  }

  /** Adding a secondary address: an existing entry only gets a new tick. */
  function Touch(ledger: seq<Entry>, key: Key, prefix: nat, tick: U64): seq<Entry> {
    if ledger == [] then [Entry(key, prefix, tick)]
    else if ledger[0].key == key then [ledger[0].(addedTick := tick)] + ledger[1..]
    else [ledger[0]] + Touch(ledger[1..], key, prefix, tick)
  }

  lemma {:induction false} TouchKeeps(ledger: seq<Entry>, key: Key, prefix: nat, tick: U64)
    ensures Keys(Touch(ledger, key, prefix, tick)) == Keys(ledger) + {key}
    ensures NoDuplicates(ledger) ==> NoDuplicates(Touch(ledger, key, prefix, tick))
  {
    if ledger == [] {
      assert Touch(ledger, key, prefix, tick)[0].key == key;
    } else {
      var rest, t := ledger[1..], Touch(ledger, key, prefix, tick);
      TouchKeeps(rest, key, prefix, tick);
      assert Keys(ledger) == {ledger[0].key} + Keys(rest);
      assert t[0] in t && Keys(t) == {t[0].key} + Keys(t[1..]);
      if NoDuplicates(ledger) {
        assert forall e :: e in rest ==> e.key != ledger[0].key;
        forall i, j | 0 <= i < j < |t|
          ensures t[i].key != t[j].key
        {
          if i == 0 {
            assert t[j] in t[1..] && t[j].key in Keys(t[1..]);
          } else {
            assert t[i] == t[1..][i - 1] && t[j] == t[1..][j - 1];
          }
        }
      }
    }
  }

  // ---------------------------------------------------------------- cleaning up

  type Removals = Key -> Removal

  /** Clearing the first n entries of a snapshot that are not for the kept address; the
      entries go whatever the removal reports. */
  function OldUpTo(s: State, snapshot: seq<Entry>, n: nat, keep: Ip, rem: Removals): State
    requires n <= |snapshot|
  {
    if n == 0 then s
    else
      var s' := OldUpTo(s, snapshot, n - 1, keep, rem);
      var key := snapshot[n - 1].key;
      if key.ip == keep then s'
      else s'.(addrs := TryRemove(s'.addrs, key, rem(key)).1, ledger := Without(s'.ledger, key))
  }

  function CleanupOld(s: State, keep: Ip, rem: Removals): State {
    OldUpTo(s, s.ledger, |s.ledger|, keep, rem)
  }

  predicate Expired(e: Entry, tick: U64) {
    tick >= e.addedTick && tick - e.addedTick >= AGING_TICKS
  }

  function ExpiredOf(ledger: seq<Entry>, tick: U64): (r: seq<Entry>)
    ensures forall e :: e in r <==> e in ledger && Expired(e, tick)
  {
    if ledger == [] then []
    else
      var rest := ExpiredOf(ledger[1..], tick);
      if Expired(ledger[0], tick) then [ledger[0]] + rest else rest
  }

  /** Ageing: an expired entry goes only when its removal reports success. */
  function AgeUpTo(s: State, expired: seq<Entry>, n: nat, rem: Removals): State
    requires n <= |expired|
  {
    if n == 0 then s
    else
      var s' := AgeUpTo(s, expired, n - 1, rem);
      var key := expired[n - 1].key;
      var (ok, addrs) := TryRemove(s'.addrs, key, rem(key));
      s'.(addrs := addrs, ledger := if ok then Without(s'.ledger, key) else s'.ledger)
  }

  function NextTick(s: State): State {
    s.(tick := (s.tick + 1) % MOD64)
  }

  function Round(s: State, rem: Removals): State {
    var s' := NextTick(s);
    var expired := ExpiredOf(s'.ledger, s'.tick);
    AgeUpTo(s', expired, |expired|, rem)
  }

  ghost predicate Sane(s: State) {
    NoDuplicates(s.ledger)
  }

  lemma {:induction false} OldUpToLedger(s: State, snapshot: seq<Entry>, n: nat, keep: Ip, rem: Removals)
    requires n <= |snapshot| && Sane(s)
    ensures var s' := OldUpTo(s, snapshot, n, keep, rem);
            && Sane(s') && s'.tick == s.tick && s'.last == s.last && s'.routes == s.routes
            && (forall k :: k in Keys(s'.ledger) <==> k in Keys(s.ledger) && (k.ip == keep || k !in Keys(snapshot[..n])))
            && (forall e :: e in s'.ledger ==> e in s.ledger)
  {
    hide TryRemove;
    if n > 0 {
      OldUpToLedger(s, snapshot, n - 1, keep, rem);
      var s0, key := OldUpTo(s, snapshot, n - 1, keep, rem), snapshot[n - 1].key;
      KeysNext(snapshot, n);
      WithoutKeeps(s0.ledger, key);
    }
  }

  lemma KeysNext(snapshot: seq<Entry>, n: nat)
    requires 0 < n <= |snapshot|
    ensures Keys(snapshot[..n]) == Keys(snapshot[..n - 1]) + {snapshot[n - 1].key}
  {
    assert snapshot[..n] == snapshot[..n - 1] + [snapshot[n - 1]];
    assert snapshot[n - 1] in snapshot[..n];
  }

  lemma {:induction false} OldUpToAddrs(s: State, snapshot: seq<Entry>, n: nat, keep: Ip, rem: Removals)
    requires n <= |snapshot|
    ensures forall k :: k in OldUpTo(s, snapshot, n, keep, rem).addrs <==>
                        k in s.addrs && !(k in Keys(snapshot[..n]) && k.ip != keep && TakesOff(rem(k)))
  {
    hide TryRemove, TakesOff, Reported, Keys, Without;
    if n == 0 {
      NoKeys(snapshot);
    } else {
      OldUpToAddrs(s, snapshot, n - 1, keep, rem);
      var s0, key := OldUpTo(s, snapshot, n - 1, keep, rem), snapshot[n - 1].key;
      KeysNext(snapshot, n);
      TryRemoveIs(s0.addrs, key, rem(key));
    }
  }

  lemma NoKeys(snapshot: seq<Entry>)
    ensures Keys(snapshot[..0]) == {}
  {
  }

  /** After clearing, only entries for the kept address are left, and exactly those addresses
      were taken off that are in the ledger, not the kept one, and whose removal worked. */
  lemma CleanupOldSpec(s: State, keep: Ip, rem: Removals)
    requires Sane(s)
    ensures var s' := CleanupOld(s, keep, rem);
            && Sane(s') && s'.tick == s.tick && s'.last == s.last && s'.routes == s.routes
            && (forall k :: k in Keys(s'.ledger) <==> k in Keys(s.ledger) && k.ip == keep)
            && (forall k :: k in s'.addrs <==> k in s.addrs && !(k in Keys(s.ledger) && k.ip != keep && TakesOff(rem(k))))
  {
    OldUpToLedger(s, s.ledger, |s.ledger|, keep, rem);
    OldUpToAddrs(s, s.ledger, |s.ledger|, keep, rem);
    assert s.ledger[..|s.ledger|] == s.ledger;
  }

  lemma {:induction false} AgeUpToSpec(s: State, expired: seq<Entry>, n: nat, rem: Removals)
    requires n <= |expired| && Sane(s)
    ensures var s' := AgeUpTo(s, expired, n, rem);
            && Sane(s') && s'.tick == s.tick && s'.last == s.last && s'.routes == s.routes
            && (forall e :: e in s'.ledger <==> e in s.ledger && !(e.key in Keys(expired[..n]) && Reported(rem(e.key))))
            && (forall k :: k in s'.addrs <==> k in s.addrs && !(k in Keys(expired[..n]) && TakesOff(rem(k))))
  {
    if n > 0 {
      AgeUpToSpec(s, expired, n - 1, rem);
      var s0, key := AgeUpTo(s, expired, n - 1, rem), expired[n - 1].key;
      assert expired[..n] == expired[..n - 1] + [expired[n - 1]];
      assert Keys(expired[..n]) == Keys(expired[..n - 1]) + {key} by { assert expired[n - 1] in expired[..n]; }
      WithoutKeeps(s0.ledger, key);
      TryRemoveIs(s0.addrs, key, rem(key));
      hide TryRemove, TakesOff, Reported;
    }
  }

  /** A cleanup round drops exactly the expired entries whose removal reports success, and deletes
      exactly the addresses of expired entries whose removal works. */
  lemma RoundSpec(s: State, rem: Removals)
    requires Sane(s)
    ensures var s' := Round(s, rem);
            && Sane(s') && s'.last == s.last && s'.routes == s.routes
            && s'.tick == (s.tick + 1) % MOD64
            && (forall e :: e in s'.ledger <==> e in s.ledger && !(Expired(e, s'.tick) && Reported(rem(e.key))))
            && (forall k :: k in s'.addrs <==>
                  k in s.addrs && !((exists e :: e in s.ledger && e.key == k && Expired(e, s'.tick)) && TakesOff(rem(k))))
  {
    var s0 := NextTick(s);
    var expired := ExpiredOf(s0.ledger, s0.tick);
    AgeUpToSpec(s0, expired, |expired|, rem);
    assert expired[..|expired|] == expired;
    var s' := Round(s, rem);
    forall e, x | e in s.ledger && x in expired && x.key == e.key
      ensures e == x
    {
      SameKeySameEntry(s.ledger, e, x);
    }
  }

  lemma SameKeySameEntry(ledger: seq<Entry>, a: Entry, b: Entry)
    requires NoDuplicates(ledger) && a in ledger && b in ledger && a.key == b.key
    ensures a == b
  {
    var i :| 0 <= i < |ledger| && ledger[i] == a;
    var j :| 0 <= j < |ledger| && ledger[j] == b;
  }

  // ---------------------------------------------------------------- the jump

  /** What is asked for. `target` is the parsed target, or none if it does not parse;
      `gateway` is none if the field is blank. */
  datatype Config = Config(source: Ip, target: Option<Ip>, gateway: Option<Gateway>)

  /** The answers met during one jump. `lines` is the listing of the main interface,
      `iface` the interface on which the source was then found; either look may fail.
      `backup` is the gateway noted with it, if one was found. */
  datatype Env = Env(lines: Option<seq<Line>>, rem: Removals, iface: Option<Iface>, prefix: nat, backup: Option<Gateway>,
                     del: Cmd, add: Cmd, sees: bool, secondary: Cmd, reroute: Rerouting,
                     rollback: Cmd, routeBack: Rerouting)

  datatype Outcome = Done | NoSource | NoInterface | BadTarget | DelFailed | AddFailed | GatewayFailed

  ghost function Source(cfg: Config, env: Env): Option<Ip> {
    if env.lines.None? then None else EffectiveSource(env.lines.value, cfg.source)
  }

  /** The source is found only where it is. */
  ghost predicate Truthful(s: State, cfg: Config, env: Env) {
    Source(cfg, env).Some? && env.iface.Some? ==> Key(env.iface.value, Source(cfg, env).value) in s.addrs
  }

  /** All looks succeeded, so addresses are about to be changed. */
  ghost predicate Begun(cfg: Config, env: Env) {
    Source(cfg, env).Some? && env.iface.Some? && cfg.target.Some?
  }

  /** The target was added. */
  ghost predicate Moved(cfg: Config, env: Env) {
    Begun(cfg, env) && env.del.ok && env.add.ok
  }

  ghost function From(cfg: Config, env: Env): Key
    requires Begun(cfg, env)
  {
    Key(env.iface.value, Source(cfg, env).value)
  }

  ghost function To(cfg: Config, env: Env): Key
    requires Begun(cfg, env)
  {
    Key(env.iface.value, cfg.target.value)
  }

  function AddSecondary(s: State, key: Key, prefix: nat, tick: U64, sees: bool, add: Cmd): State {
    var known := key in Keys(s.ledger);
    s.(ledger := Touch(s.ledger, key, prefix, tick),
       addrs := if known || sees then s.addrs else Insert(s.addrs, key, add))
  }

  /** Putting the source and, if one was noted, the gateway back. */
  function Restore(s: State, key: Key, backup: Option<Gateway>, rollback: Cmd, routeBack: Rerouting): State {
    s.(addrs := Insert(s.addrs, key, rollback),
       routes := if backup.Some? then SetRoute(s.routes, key.iface, backup.value, routeBack) else s.routes)
  }

  ghost function Jump(s: State, cfg: Config, env: Env): (State, Outcome) {
    if Source(cfg, env).None? then (s, NoSource)
    else
      var s1 := CleanupOld(s, Source(cfg, env).value, env.rem);
      if env.iface.None? then (s1, NoInterface)
      else if cfg.target.None? then (s1, BadTarget)
      else
        var from, to := From(cfg, env), To(cfg, env);
        var s2 := s1.(addrs := Delete(s1.addrs, from, env.del));
        if !env.del.ok then (Restore(s2, from, env.backup, env.rollback, env.routeBack), DelFailed)
        else
          var s3 := s2.(addrs := Insert(s2.addrs, to, env.add));
          if !env.add.ok then (Restore(s3, from, env.backup, env.rollback, env.routeBack), AddFailed)
          else
            var s4 := NextTick(s3.(last := Some(to)));
            var s5 := AddSecondary(s4, from, env.prefix, s4.tick, env.sees, env.secondary);
            if cfg.gateway.None? then (s5, Done)
            else
              var s6 := s5.(routes := SetRoute(s5.routes, from.iface, cfg.gateway.value, env.reroute));
              if !env.reroute.add.ok then (Restore(s6, from, env.backup, env.rollback, env.routeBack), GatewayFailed)
              else (s6, Done)
  }

  // ---------------------------------------------------------------- inside one jump

  /** Whatever fails, a jump that reports success left the target on the interface. */
  lemma DoneHasTarget(s: State, cfg: Config, env: Env)
    requires Jump(s, cfg, env).1 == Done
    ensures Begun(cfg, env) && To(cfg, env) in Jump(s, cfg, env).0.addrs
  {
  }

  ghost predicate RolledBack(r: Outcome) {
    r in {DelFailed, AddFailed, GatewayFailed}
  }

  /** Whether a command put something in place. */
  predicate Works(c: Cmd) {
    c.ok || c.effect
  }

  /** The addresses after a jump that begins, on every exit: the source goes if its deletion has
      an effect; the target comes if the deletion was reported as done and adding it works; after
      a move the source comes back as a secondary address if it is not in the ledger already, is
      not seen and adding it works; and on failure it comes back if the rollback works. */
  lemma AddressesOnExit(s: State, cfg: Config, env: Env, k: Key)
    requires Sane(s) && Begun(cfg, env)
    ensures var (s', r) := Jump(s, cfg, env);
            var from, to := From(cfg, env), To(cfg, env);
            k in s'.addrs <==>
            || (k in CleanupOld(s, from.ip, env.rem).addrs && !(k == from && env.del.effect))
            || (k == to && env.del.ok && Works(env.add))
            || (k == from && env.del.ok && env.add.ok && from !in Keys(s.ledger) && !env.sees && Works(env.secondary))
            || (k == from && RolledBack(r) && Works(env.rollback))
    ensures Jump(s, cfg, env).1 ==
            if !env.del.ok then DelFailed
            else if !env.add.ok then AddFailed
            else if cfg.gateway.Some? && !env.reroute.add.ok then GatewayFailed
            else Done
  {
    hide CleanupOld, EffectiveSource, SetRoute;
    CleanupOldSpec(s, From(cfg, env).ip, env.rem);
  }

  /** Whether a jump that reports success keeps the address it came from as a secondary one. */
  lemma SourceKeptIff(s: State, cfg: Config, env: Env)
    requires Sane(s) && Begun(cfg, env) && From(cfg, env) != To(cfg, env) && Jump(s, cfg, env).1 == Done
    ensures From(cfg, env) in Jump(s, cfg, env).0.addrs <==>
            || (From(cfg, env) in s.addrs && !env.del.effect)
            || (From(cfg, env) !in Keys(s.ledger) && !env.sees && Works(env.secondary))
  {
    AddressesOnExit(s, cfg, env, From(cfg, env));
    hide Jump, CleanupOld, EffectiveSource;
    CleanupOldSpec(s, From(cfg, env).ip, env.rem);
  }

  /** Then the ledger has an entry for it with the present tick: the old one, if there was one,
      and a new one with the prefix of the interface otherwise. */
  lemma SourceIsEntered(s: State, cfg: Config, env: Env)
    requires Sane(s) && Moved(cfg, env)
    ensures var s' := Jump(s, cfg, env).0;
            && s'.tick == (s.tick + 1) % MOD64
            && (forall e :: e in s.ledger && e.key == From(cfg, env) ==> e.(addedTick := s'.tick) in s'.ledger)
            && (From(cfg, env) !in Keys(s.ledger) ==> Entry(From(cfg, env), env.prefix, s'.tick) in s'.ledger)
  {
    hide CleanupOld, EffectiveSource, SetRoute;
    var s1 := CleanupOld(s, From(cfg, env).ip, env.rem);
    CleanupOldSpec(s, From(cfg, env).ip, env.rem);
    OldEntriesStay(s, From(cfg, env).ip, env.rem);
    TouchEnters(s1.ledger, From(cfg, env), env.prefix, (s1.tick + 1) % MOD64);
  }

  lemma {:induction false} TouchEnters(ledger: seq<Entry>, key: Key, prefix: nat, tick: U64)
    requires NoDuplicates(ledger)
    ensures forall e :: e in ledger && e.key == key ==> e.(addedTick := tick) in Touch(ledger, key, prefix, tick)
    ensures key !in Keys(ledger) ==> Entry(key, prefix, tick) in Touch(ledger, key, prefix, tick)
  {
    if ledger != [] {
      var rest := ledger[1..];
      TouchEnters(rest, key, prefix, tick);
      assert ledger == [ledger[0]] + rest;
      assert forall e :: e in rest ==> e.key != ledger[0].key;
    }
  }

  /** Clearing leaves the entries for the kept address as they are. */
  lemma {:induction false} OldEntriesUpTo(s: State, snapshot: seq<Entry>, n: nat, keep: Ip, rem: Removals)
    requires n <= |snapshot|
    ensures forall e :: e in s.ledger && e.key.ip == keep ==> e in OldUpTo(s, snapshot, n, keep, rem).ledger
  {
    hide TryRemove;
    if n > 0 {
      OldEntriesUpTo(s, snapshot, n - 1, keep, rem);
    }
  }

  lemma OldEntriesStay(s: State, keep: Ip, rem: Removals)
    ensures forall e :: e in s.ledger && e.key.ip == keep ==> e in CleanupOld(s, keep, rem).ledger
  {
    OldEntriesUpTo(s, s.ledger, |s.ledger|, keep, rem);
  }

  /** A jump that finds no source changes nothing; one that stops before its first command
      has only cleared old secondary addresses, none of them the source. */
  lemma EarlyExits(s: State, cfg: Config, env: Env)
    requires Sane(s) && !Begun(cfg, env)
    ensures var (s', r) := Jump(s, cfg, env);
            && s'.routes == s.routes && s'.tick == s.tick && s'.last == s.last
            && (r == NoSource <==> Source(cfg, env).None?) && (r == NoSource ==> s' == s)
            && (forall k :: k in s.addrs && k !in s'.addrs ==>
                  r in {NoInterface, BadTarget} && k in Keys(s.ledger) && k.ip != Source(cfg, env).value)
  {
    hide CleanupOld, EffectiveSource;
    if Source(cfg, env).Some? {
      CleanupOldSpec(s, Source(cfg, env).value, env.rem);
    }
  }

  /** Exactly when a jump can leave the interface with neither source nor target: the
      source was taken off, the target was neither put on nor there before, and the
      rollback did nothing. */
  lemma StrandedIff(s: State, cfg: Config, env: Env)
    requires Sane(s) && Begun(cfg, env) && From(cfg, env) in s.addrs
    ensures var s' := Jump(s, cfg, env).0;
            From(cfg, env) in s'.addrs || To(cfg, env) in s'.addrs <==>
            || !env.del.effect
            || env.rollback.ok || env.rollback.effect
            || (env.del.ok && (env.add.ok || env.add.effect))
            || (To(cfg, env) in CleanupOld(s, Source(cfg, env).value, env.rem).addrs && To(cfg, env) != From(cfg, env))
  {
    hide CleanupOld, EffectiveSource, SetRoute;
    CleanupOldSpec(s, Source(cfg, env).value, env.rem);
  }

  /** If the source is on an interface before the jump, then source or target is there on every
      exit, unless the deletion took the source off, the target was not put on and the rollback
      did nothing. */
  lemma NeverStranded(s: State, cfg: Config, env: Env, iface: Iface)
    requires Sane(s) && Source(cfg, env).Some? && Key(iface, Source(cfg, env).value) in s.addrs
    requires || !env.del.effect || env.rollback.ok || env.rollback.effect
             || (env.del.ok && (env.add.ok || env.add.effect))
    ensures var s' := Jump(s, cfg, env).0;
            || Key(iface, Source(cfg, env).value) in s'.addrs
            || (cfg.target.Some? && Key(iface, cfg.target.value) in s'.addrs)
  {
    hide CleanupOld, EffectiveSource, SetRoute;
    CleanupOldSpec(s, Source(cfg, env).value, env.rem);
    if Begun(cfg, env) && env.iface.value == iface {
      StrandedIff(s, cfg, env);
    }
  }

  /** A jump that strands its host: the source goes, the target cannot be added and neither
      can the source. */
  lemma StrandingJump() returns (s: State, cfg: Config, env: Env)
    ensures Begun(cfg, env) && Truthful(s, cfg, env) && s.addrs == {From(cfg, env)}
    ensures Jump(s, cfg, env).1 == AddFailed && Jump(s, cfg, env).0.addrs == {}
  {
    var key := Key("eth0", "10.0.0.1");
    var good, bad := Cmd(true, true), Cmd(false, false);
    s := BOOT.(addrs := {key});
    cfg := Config(key.ip, Some("10.0.0.2"), None);
    env := Env(Some([Line(key.ip, false)]), _ => Removal(false, bad, false, bad, false), Some(key.iface), 24, None,
               good, bad, false, bad, Rerouting(bad, bad), bad, Rerouting(bad, bad));
    assert Line(key.ip, false) == env.lines.value[0];
    assert CleanupOld(s, key.ip, env.rem) == s;
  }

  // ---------------------------------------------------------------- the default route

  /** The routes on every exit: success sets the gateway that was asked for, if any, and a
      rollback that gets through sets the one that was noted; no exit touches the route of
      another interface. */
  lemma RoutesOnExit(s: State, cfg: Config, env: Env)
    requires Sane(s) && Begun(cfg, env)
    ensures var (s', r) := Jump(s, cfg, env);
            var iface := From(cfg, env).iface;
            && (forall i :: i != iface ==> (i in s'.routes <==> i in s.routes) && (i in s.routes ==> s'.routes[i] == s.routes[i]))
            && (r == Done && cfg.gateway.None? ==> s'.routes == s.routes)
            && (r == Done && cfg.gateway.Some? ==> s'.routes == s.routes[iface := cfg.gateway.value])
            && (RolledBack(r) && env.backup.Some? && (env.routeBack.add.ok || env.routeBack.add.effect) ==>
                  s'.routes == s.routes[iface := env.backup.value])
  {
    hide CleanupOld, EffectiveSource, AddSecondary, Delete, Insert;
    CleanupOldSpec(s, Source(cfg, env).value, env.rem);
    AddSecondaryRoutes();
  }

  lemma AddSecondaryRoutes()
    ensures forall s0: State, key, prefix, tick, sees, add :: AddSecondary(s0, key, prefix, tick, sees, add).routes == s0.routes
  {
  }

  /** Whether replacing a route leaves a table as it was. */
  ghost predicate Reverts(routes: map<Iface, Gateway>, iface: Iface, gw: Gateway, r: Rerouting) {
    if r.add.ok || r.add.effect then iface in routes && routes[iface] == gw
    else r.del.effect ==> iface !in routes
  }

  /** A rolled back jump leaves the routes as they were exactly in these cases: the rollback set
      the noted gateway and it was the route of this very interface; or it only deleted, and the
      interface had no route; or it did neither, and nothing had changed the route before.
      Even a jump that did nothing else can lose a route or add one. */
  lemma RoutesKeptIff(s: State, cfg: Config, env: Env)
    requires Sane(s) && Begun(cfg, env) && RolledBack(Jump(s, cfg, env).1)
    ensures var (s', r) := Jump(s, cfg, env);
            var iface := From(cfg, env).iface;
            s'.routes == s.routes <==>
            if env.backup.Some? && (env.routeBack.add.ok || env.routeBack.add.effect) then
              iface in s.routes && s.routes[iface] == env.backup.value
            else if env.backup.Some? && env.routeBack.del.effect then iface !in s.routes
            else r == GatewayFailed ==> Reverts(s.routes, iface, cfg.gateway.value, env.reroute)
  {
    hide CleanupOld, EffectiveSource, AddSecondary, Delete, Insert;
    CleanupOldSpec(s, Source(cfg, env).value, env.rem);
    AddSecondaryRoutes();
  }

  /** A jump whose first command fails without effect and whose rollback loses the route: it
      deletes the default route and cannot set it again. */
  lemma RouteLost() returns (s: State, cfg: Config, env: Env)
    ensures Begun(cfg, env) && Truthful(s, cfg, env)
    ensures env.backup.Some? && s.routes == map[From(cfg, env).iface := env.backup.value]
    ensures Jump(s, cfg, env) == (s.(routes := map[]), DelFailed)
  {
    var key, gw := Key("eth0", "10.0.0.1"), "10.0.0.254";
    var good, bad := Cmd(true, true), Cmd(false, false);
    s := BOOT.(addrs := {key}, routes := map[key.iface := gw]);
    cfg := Config(key.ip, Some("10.0.0.2"), None);
    env := Env(Some([Line(key.ip, false)]), _ => Removal(false, bad, false, bad, false), Some(key.iface), 24, Some(gw),
               bad, bad, false, bad, Rerouting(bad, bad), bad, Rerouting(good, bad));
    assert Line(key.ip, false) == env.lines.value[0];
    assert CleanupOld(s, key.ip, env.rem) == s;
    assert s.routes - {key.iface} == map[];
  }

  /** A jump whose first command fails without effect and whose rollback succeeds in full: the
      noted gateway is that of another interface, and the rollback gives it to this one too. */
  lemma RouteCopied() returns (s: State, cfg: Config, env: Env)
    ensures Begun(cfg, env) && Truthful(s, cfg, env) && env.rollback == env.routeBack.add == Cmd(true, true)
    ensures exists other :: other in s.routes && env.backup == Some(s.routes[other])
    ensures From(cfg, env).iface !in s.routes && env.backup.Some?
    ensures Jump(s, cfg, env) == (s.(routes := s.routes[From(cfg, env).iface := env.backup.value]), DelFailed)
  {
    var key, other, gw := Key("eth0", "10.0.0.1"), "eth1", "10.0.1.254";
    var good, bad := Cmd(true, true), Cmd(false, false);
    s := BOOT.(addrs := {key}, routes := map[other := gw]);
    cfg := Config(key.ip, Some("10.0.0.2"), None);
    env := Env(Some([Line(key.ip, false)]), _ => Removal(false, bad, false, bad, false), Some(key.iface), 24, Some(gw),
               bad, bad, false, bad, Rerouting(bad, bad), good, Rerouting(good, good));
    assert Line(key.ip, false) == env.lines.value[0];
    assert CleanupOld(s, key.ip, env.rem) == s;
    assert key.iface != other by { assert key.iface[3] != other[3]; }
    assert s.routes - {key.iface} == s.routes && s.addrs + {key} == s.addrs;
    assert other in s.routes;
  }

  // ---------------------------------------------------------------- over runs

  datatype Step = DoJump(cfg: Config, env: Env) | DoRound(rem: Removals)

  ghost function Next(s: State, step: Step): State {
    match step
    case DoJump(cfg, env) => Jump(s, cfg, env).0
    case DoRound(rem) => Round(s, rem)
  }

  ghost function Run(s: State, steps: seq<Step>): State {
    if steps == [] then s else Next(Run(s, steps[..|steps| - 1]), steps[|steps| - 1])
  }

  const BOOT: State := State({}, map[], [], 0, None)

  /** The ledger has no duplicate keys and does not hold the current target. */
  ghost predicate Inv(s: State) {
    Sane(s) && (s.last.Some? ==> s.last.value !in Keys(s.ledger))
  }

  /** The target differs from the address the jump starts from. */
  ghost predicate Elsewhere(step: Step) {
    step.DoJump? && Begun(step.cfg, step.env) ==> From(step.cfg, step.env) != To(step.cfg, step.env)
  }

  /** What a jump does to the ledger. */
  lemma JumpLedger(s: State, cfg: Config, env: Env)
    requires Sane(s)
    ensures var s' := Jump(s, cfg, env).0;
            && Sane(s')
            && (forall k :: k in Keys(s'.ledger) ==> k in Keys(s.ledger) || (Moved(cfg, env) && k == From(cfg, env)))
            && (Moved(cfg, env) ==> s'.last == Some(To(cfg, env)) && From(cfg, env) in Keys(s'.ledger))
            && (Moved(cfg, env) ==> forall k :: k in Keys(s'.ledger) ==> k.ip == Source(cfg, env).value)
            && (!Moved(cfg, env) ==> s'.last == s.last)
  {
    hide CleanupOld, EffectiveSource, Keys;
    if Source(cfg, env).Some? {
      var s1 := CleanupOld(s, Source(cfg, env).value, env.rem);
      CleanupOldSpec(s, Source(cfg, env).value, env.rem);
      if Moved(cfg, env) {
        TouchKeeps(s1.ledger, From(cfg, env), env.prefix, (s1.tick + 1) % MOD64);
      }
    }
  }

  /** Whether a jump that moved keeps its target out of the ledger depends only on the
      target being another address than the source. */
  lemma TargetSafeIff(s: State, cfg: Config, env: Env)
    requires Inv(s) && Moved(cfg, env)
    ensures Inv(Jump(s, cfg, env).0) <==> From(cfg, env) != To(cfg, env)
  {
    JumpLedger(s, cfg, env);
  }

  lemma StepKeeps(s: State, step: Step)
    requires Inv(s) && Elsewhere(step)
    ensures Inv(Next(s, step))
  {
    match step
    case DoJump(cfg, env) =>
      JumpLedger(s, cfg, env);
      if Moved(cfg, env) {
        TargetSafeIff(s, cfg, env);
      }
    case DoRound(rem) =>
      RoundSpec(s, rem);
  }

  /** Over any run of jumps to other addresses and cleanup rounds, whatever fails, the
      ledger has no duplicates and never holds the address last added as a target. */
  lemma {:induction false} LedgerOnEveryRun(addrs: set<Key>, routes: map<Iface, Gateway>, steps: seq<Step>)
    requires forall i :: 0 <= i < |steps| ==> Elsewhere(steps[i])
    ensures Inv(Run(BOOT.(addrs := addrs, routes := routes), steps))
  {
    if steps != [] {
      var n := |steps| - 1;
      LedgerOnEveryRun(addrs, routes, steps[..n]);
      StepKeeps(Run(BOOT.(addrs := addrs, routes := routes), steps[..n]), steps[n]);
    }
  }

  /** A jump whose source is not this address. */
  ghost predicate NotFrom(step: Step, key: Key) {
    step.DoJump? && Begun(step.cfg, step.env) ==> From(step.cfg, step.env) != key
  }

  /** An address outside the ledger is touched only by a jump that starts from it. */
  lemma StepSpares(s: State, step: Step, key: Key)
    requires Sane(s) && key in s.addrs && key !in Keys(s.ledger) && NotFrom(step, key)
    ensures var s' := Next(s, step); Sane(s') && key in s'.addrs && key !in Keys(s'.ledger)
  {
    match step
    case DoJump(cfg, env) =>
      hide CleanupOld, EffectiveSource;
      JumpLedger(s, cfg, env);
      if Source(cfg, env).Some? {
        CleanupOldSpec(s, Source(cfg, env).value, env.rem);
      }
    case DoRound(rem) =>
      RoundSpec(s, rem);
  }

  lemma {:induction false} RunSpares(s: State, steps: seq<Step>, key: Key)
    requires Sane(s) && key in s.addrs && key !in Keys(s.ledger)
    requires forall i :: 0 <= i < |steps| ==> NotFrom(steps[i], key)
    ensures var s' := Run(s, steps); Sane(s') && key in s'.addrs && key !in Keys(s'.ledger)
  {
    if steps != [] {
      var n := |steps| - 1;
      RunSpares(s, steps[..n], key);
      StepSpares(Run(s, steps[..n]), steps[n], key);
    }
  }

  /** The address of the last successful jump survives any number of later steps, of
      ageing and of clearing, until a jump starts from it. */
  lemma TargetSurvives(addrs: set<Key>, routes: map<Iface, Gateway>, before: seq<Step>, jump: Step, after: seq<Step>)
    requires forall i :: 0 <= i < |before| ==> Elsewhere(before[i])
    requires jump.DoJump? && Elsewhere(jump) && Begun(jump.cfg, jump.env)
    requires var s := Run(BOOT.(addrs := addrs, routes := routes), before); Jump(s, jump.cfg, jump.env).1 == Done
    requires forall i :: 0 <= i < |after| ==> NotFrom(after[i], To(jump.cfg, jump.env))
    ensures var s := Next(Run(BOOT.(addrs := addrs, routes := routes), before), jump);
            To(jump.cfg, jump.env) in Run(s, after).addrs
  {
    var s := Run(BOOT.(addrs := addrs, routes := routes), before);
    LedgerOnEveryRun(addrs, routes, before);
    StepKeeps(s, jump);
    JumpLedger(s, jump.cfg, jump.env);
    DoneHasTarget(s, jump.cfg, jump.env);
    RunSpares(Next(s, jump), after, To(jump.cfg, jump.env));
  }

  // ---------------------------------------------------------------- ageing

  ghost predicate HonestUpTo(s: State, expired: seq<Entry>, n: nat, rem: Removals)
    requires n <= |expired|
  {
    n == 0 ||
    (HonestUpTo(s, expired, n - 1, rem) &&
     Honest(AgeUpTo(s, expired, n - 1, rem).addrs, expired[n - 1].key, rem(expired[n - 1].key)))
  }

  ghost predicate HonestRound(s: State, rem: Removals) {
    var s0 := NextTick(s);
    var expired := ExpiredOf(s0.ledger, s0.tick);
    HonestUpTo(s0, expired, |expired|, rem)
  }

  /** Nothing that left the ledger is still on the interface. */
  ghost predicate GoneUpTo(s: State, s': State) {
    forall e :: e in s.ledger && e !in s'.ledger ==> e.key !in s'.addrs
  }

  lemma GoneStep(s: State, s0: State, s1: State, key: Key, r: Removal)
    requires GoneUpTo(s, s0) && Honest(s0.addrs, key, r)
    requires var (ok, addrs) := TryRemove(s0.addrs, key, r);
             s1 == s0.(addrs := addrs, ledger := if ok then Without(s0.ledger, key) else s0.ledger)
    ensures GoneUpTo(s, s1)
  {
    TryRemoveTouchesOne(s0.addrs, key, r);
    if TryRemove(s0.addrs, key, r).0 {
      RemovedMeansGone(s0.addrs, key, r);
    }
    hide TryRemove, Honest;
  }

  lemma {:induction false} AgedOutUpTo(s: State, expired: seq<Entry>, n: nat, rem: Removals)
    requires n <= |expired| && HonestUpTo(s, expired, n, rem)
    ensures GoneUpTo(s, AgeUpTo(s, expired, n, rem))
  {
    if n > 0 {
      hide TryRemove, Honest, GoneUpTo;
      AgedOutUpTo(s, expired, n - 1, rem);
      var key := expired[n - 1].key;
      GoneStep(s, AgeUpTo(s, expired, n - 1, rem), AgeUpTo(s, expired, n, rem), key, rem(key));
    }
  }

  /** With honest looks an entry that ages out of the ledger is off the interface. */
  lemma AgedOutIsGone(s: State, rem: Removals)
    requires HonestRound(s, rem)
    ensures forall e :: e in s.ledger && e !in Round(s, rem).ledger ==> e.key !in Round(s, rem).addrs
  {
    var s0 := NextTick(s);
    AgedOutUpTo(s0, ExpiredOf(s0.ledger, s0.tick), |ExpiredOf(s0.ledger, s0.tick)|, rem);
  }

  // ---------------------------------------------------------------- a jump onto itself

  /** Asked to jump from an address to itself, the manager enters its own address in the
      ledger, and two cleanup rounds later ageing deletes it. */
  lemma JumpToSelfIsAgedOut() returns (steps: seq<Step>, key: Key)
    ensures forall i :: 0 <= i < |steps| ==> steps[i].DoRound? || Truthful(Run(BOOT.(addrs := {key}), steps[..i]), steps[i].cfg, steps[i].env)
    ensures |steps| == 3 && var s := Run(BOOT.(addrs := {key}), steps[..1]); s.last == Some(key) && key in s.addrs
    ensures key !in Run(BOOT.(addrs := {key}), steps).addrs
  {
    key := Key("eth0", "10.0.0.1");
    var good := Cmd(true, true);
    var rem: Removals := _ => Removal(true, good, false, good, false);
    var lines := [Line(key.ip, false)];
    var cfg := Config(key.ip, Some(key.ip), None);
    var reroute := Rerouting(good, good);
    var env := Env(Some(lines), rem, Some(key.iface), 24, None, good, good, true, good, reroute, good, reroute);
    steps := [DoJump(cfg, env), DoRound(rem), DoRound(rem)];
    var s0 := BOOT.(addrs := {key});
    assert Line(key.ip, false) == lines[0];
    assert Source(cfg, env) == Some(key.ip);
    assert CleanupOld(s0, key.ip, rem) == s0;
    var e := Entry(key, 24, 1);
    var s1 := State({key}, map[], [e], 1, Some(key));
    assert Jump(s0, cfg, env).0 == s1;
    assert steps[..1] == [steps[0]] && steps[..1][..0] == [];
    assert Run(s0, steps[..1]) == s1;
    var s2 := s1.(tick := 2);
    assert ExpiredOf([e], 2) == [];
    assert Round(s1, rem) == s2;
    assert steps[..2][..1] == steps[..1] && steps[..3] == steps;
    assert Run(s0, steps[..2]) == s2;
    assert ExpiredOf([e], 3) == [e];
    var s3 := AgeUpTo(s2.(tick := 3), [e], 1, rem);
    assert AgeUpTo(s2.(tick := 3), [e], 0, rem).addrs == {key};
    assert TryRemove({key}, key, rem(key)).1 == {key} - {key};
    assert s3.addrs == {};
  }

  // ---------------------------------------------------------------- the manager

  class IpJumpManager {
    var addrs: set<Key>
    var routes: map<Iface, Gateway>
    var secondaryIps: seq<Entry>
    var tickCounter: U64
    ghost var last: Option<Key>

    ghost function View(): State reads this {
      State(addrs, routes, secondaryIps, tickCounter, last)
    }

    constructor (present: set<Key>, gateways: map<Iface, Gateway>)
      ensures View() == BOOT.(addrs := present, routes := gateways)
    {
      addrs, routes, secondaryIps, tickCounter, last := present, gateways, [], 0, None;
    }

    method RunDel(key: Key, c: Cmd) returns (ok: bool)
      modifies this`addrs
      ensures ok == c.ok && addrs == Delete(old(addrs), key, c)
    {
      ok := c.ok;
      if c.effect {
        addrs := addrs - {key};
      }
    }

    method RunAdd(key: Key, c: Cmd) returns (ok: bool)
      modifies this`addrs
      ensures ok == c.ok && addrs == Insert(old(addrs), key, c)
    {
      ok := c.ok;
      if c.ok || c.effect {
        addrs := addrs + {key};
      }
    }

    method TryRemoveIpFromSystem(key: Key, r: Removal) returns (ok: bool)
      modifies this`addrs
      ensures (ok, addrs) == TryRemove(old(addrs), key, r)
    {
      if !r.before {
        return true;
      }
      var first := RunDel(key, r.first);
      if first {
        if !r.afterFirst {
          return true;
        }
      }
      var second := RunDel(key, r.second);
      if second {
        return !r.afterSecond;
      }
      return false;
    }

    method CleanupOldSecondary(keep: Ip, rem: Removals)
      modifies this`addrs, this`secondaryIps
      ensures View() == CleanupOld(old(View()), keep, rem)
    {
      var snapshot := secondaryIps;
      for n := 0 to |snapshot|
        invariant View() == OldUpTo(old(View()), snapshot, n, keep, rem)
      {
        var entry := snapshot[n];
        if entry.key.ip != keep {
          var _ := TryRemoveIpFromSystem(entry.key, rem(entry.key));
          secondaryIps := Without(secondaryIps, entry.key);
        }
      }
    }

    method IncrementTick() returns (tick: U64)
      modifies this`tickCounter
      ensures View() == NextTick(old(View())) && tick == tickCounter
    {
      tickCounter := (tickCounter + 1) % MOD64;
      tick := tickCounter;
    }

    method AddSecondaryIp(key: Key, prefix: nat, tick: U64, sees: bool, add: Cmd) returns (ok: bool)
      modifies this`addrs, this`secondaryIps
      ensures View() == AddSecondary(old(View()), key, prefix, tick, sees, add)
      ensures ok <==> key in Keys(old(secondaryIps)) || sees || add.ok
    {
      var i := 0;
      while i < |secondaryIps| && secondaryIps[i].key != key
        invariant 0 <= i <= |secondaryIps|
        invariant forall j :: 0 <= j < i ==> secondaryIps[j].key != key
      {
        i := i + 1;
      }
      TouchAt(secondaryIps, i, key, prefix, tick);
      if i < |secondaryIps| {
        assert secondaryIps[i] in secondaryIps;
        secondaryIps := secondaryIps[i := secondaryIps[i].(addedTick := tick)];
        return true;
      }
      secondaryIps := secondaryIps + [Entry(key, prefix, tick)];
      ok := true;
      if !sees {
        ok := RunAdd(key, add);
      }
    }

    method SetGateway(gw: Gateway, iface: Iface, r: Rerouting) returns (ok: bool)
      modifies this`routes
      ensures ok == r.add.ok && routes == SetRoute(old(routes), iface, gw, r)
    {
      if r.del.effect {
        routes := routes - {iface};
      }
      ok := r.add.ok;
      if r.add.ok || r.add.effect {
        routes := routes[iface := gw];
      }
    }

    method RestoreBackup(key: Key, backup: Option<Gateway>, rollback: Cmd, routeBack: Rerouting)
      modifies this`addrs, this`routes
      ensures View() == Restore(old(View()), key, backup, rollback, routeBack)
    {
      var _ := RunAdd(key, rollback);
      if backup.Some? {
        var _ := SetGateway(backup.value, key.iface, routeBack);
      }
    }

    /** Every early return and the rollback in front of it. */
    method DoIpJump(cfg: Config, env: Env) returns (r: Outcome)
      modifies this
      ensures (View(), r) == Jump(old(View()), cfg, env)
    {
      hide CleanupOld, EffectiveSource, AddSecondary, SetRoute;
      if env.lines == None {
        return NoSource;
      }
      var source := GetPrimaryIp(env.lines.value, cfg.source);
      if source == None {
        return NoSource;
      }
      CleanupOldSecondary(source.value, env.rem);
      if env.iface == None {
        return NoInterface;
      }
      if cfg.target == None {
        return BadTarget;
      }
      var from, to := Key(env.iface.value, source.value), Key(env.iface.value, cfg.target.value);
      var ok := RunDel(from, env.del);
      if !ok {
        RestoreBackup(from, env.backup, env.rollback, env.routeBack);
        return DelFailed;
      }
      ok := RunAdd(to, env.add);
      if !ok {
        RestoreBackup(from, env.backup, env.rollback, env.routeBack);
        return AddFailed;
      }
      last := Some(to);
      var tick := IncrementTick();
      var _ := AddSecondaryIp(from, env.prefix, tick, env.sees, env.secondary);
      if cfg.gateway.Some? {
        ok := SetGateway(cfg.gateway.value, from.iface, env.reroute);
        if !ok {
          RestoreBackup(from, env.backup, env.rollback, env.routeBack);
          return GatewayFailed;
        }
      }
      return Done;
    }

    method DoPeriodicCleanup(rem: Removals)
      modifies this`addrs, this`secondaryIps, this`tickCounter
      ensures View() == Round(old(View()), rem)
    {
      hide TryRemove, Without, ExpiredOf;
      var tick := IncrementTick();
      var expired := CollectExpired(tick);
      ghost var s0 := View();
      for n := 0 to |expired|
        invariant View() == AgeUpTo(s0, expired, n, rem)
      {
        var key := expired[n].key;
        var ok := TryRemoveIpFromSystem(key, rem(key));
        if ok {
          secondaryIps := Without(secondaryIps, key);
        }
      }
    }

    method CollectExpired(tick: U64) returns (expired: seq<Entry>)
      ensures expired == ExpiredOf(secondaryIps, tick)
    {
      expired := [];
      var list := secondaryIps;
      for i := 0 to |list|
        invariant expired == ExpiredOf(list[..i], tick)
      {
        ExpiredSnoc(list[..i], list[i], tick);
        assert list[..i + 1] == list[..i] + [list[i]];
        if Expired(list[i], tick) {
          expired := expired + [list[i]];
        }
      }
      assert list[..|list|] == list;
    }
  }

  lemma {:induction false} ExpiredSnoc(ledger: seq<Entry>, e: Entry, tick: U64)
    ensures ExpiredOf(ledger + [e], tick) == ExpiredOf(ledger, tick) + (if Expired(e, tick) then [e] else [])
  {
    if ledger != [] {
      ExpiredSnoc(ledger[1..], e, tick);
      assert (ledger + [e])[1..] == ledger[1..] + [e];
    }
  }

  /** The first entry with the key is the one that changes. */
  lemma {:induction false} TouchAt(ledger: seq<Entry>, i: nat, key: Key, prefix: nat, tick: U64)
    requires i <= |ledger| && (forall j :: 0 <= j < i ==> ledger[j].key != key) && (i < |ledger| ==> ledger[i].key == key)
    ensures Touch(ledger, key, prefix, tick) ==
            if i < |ledger| then ledger[i := ledger[i].(addedTick := tick)] else ledger + [Entry(key, prefix, tick)]
  {
    if i > 0 {
      TouchAt(ledger[1..], i - 1, key, prefix, tick);
    }
  }
}
