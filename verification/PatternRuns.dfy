/** Whole runs of the pattern manager (crates/pattern/src/pattern_rules_mgr.rs): when the
    kernel's rules are the present ones, in terms of the policies in force, and why comparing
    text is comparing rows. */
module PatternRuns {
  import opened PatternRules
  import opened PatternText

  // ---------------------------------------------------------------- the policies in force

  /** What the calls so far ask for. Clearing the export directories keeps the policies'
      trusted processes, so those are still in force. */
  datatype Force = Force(self: bool, trust: seq<TrustDir>, exports: seq<Export>, cleared: bool, protects: seq<Protect>)

  const NOTHING: Force := Force(false, [], [], false, [])

  function Enforce(f: Force, c: Call): Force {
    match c
    case AddFilePattern(enable) => f.(self := f.self || enable)
    case SetGlobalTrustDir(ds) => f.(trust := Taken(ds))
    case SetExiportDir(es) => f.(exports := Taken(es), cleared := false)
    case ClearExiportDir => f.(cleared := true)
    case SetProtectDir(ds) => f.(protects := Taken(ds))
    case ClearProtectDir => f.(protects := [])
  }

  function InForce(cs: seq<Call>): Force {
    if cs == [] then NOTHING else Enforce(InForce(cs[..|cs| - 1]), cs[|cs| - 1])
  }

  /** The export policies that have patterns and rules. */
  function Active(f: Force): seq<Export> {
    if f.cleared then [] else f.exports
  }

  function RowsOf(f: Force): Rows {
    var x := ProtectUpTo(f.protects, |f.protects|);
    Rows(if f.self then SelfFamily() else NO_FAMILY,
         TrustUpTo(f.trust, |f.trust|),
         ExportUpTo(Active(f), |Active(f)|).fam,
         x.dirs, x.white, x.inc, x.exc,
         ExportUpTo(f.exports, |f.exports|).procs, x.procs)
  }

  lemma RowsOfCall(f: Force, c: Call)
    ensures Generated(RowsOf(f), c) == RowsOf(Enforce(f, c))
  {
    hide SelfFamily, TrustStep, ExportStep, ProtectStep;
  }

  lemma {:induction false} RowsOnEveryRun(k: Kernel, cs: seq<Call>)
    ensures Run(Boot(k), cs).rows == RowsOf(InForce(cs))
  {
    hide SelfFamily, TrustStep, ExportStep, ProtectStep, Generated, Compare, Loaded;
    if cs != [] {
      var n := |cs| - 1;
      RowsOnEveryRun(k, cs[..n]);
      hide RowsOf, Enforce;
      RowsOfCall(InForce(cs[..n]), cs[n]);
    }
  }

  // ---------------------------------------------------------------- the last reload

  /** The number of calls up to the last one that changed something compared. */
  function LastLoad(cs: seq<Call>): (n: nat)
    ensures n <= |cs|
  {
    if cs == [] then 0
    else
      var before := cs[..|cs| - 1];
      if Compare(RowsOf(InForce(cs))) != Compare(RowsOf(InForce(before))) then |cs| else LastLoad(before)
  }

  /** The kernel holds what was generated at the last reload, and nothing compared has
      changed since. */
  lemma {:induction false} KernelOnEveryRun(k: Kernel, cs: seq<Call>)
    ensures var m, n := Run(Boot(k), cs), LastLoad(cs);
            && (m.loads == 0 <==> n == 0)
            && m.kernel == (if n == 0 then k else Loaded(RowsOf(InForce(cs[..n]))))
            && Compare(RowsOf(InForce(cs[..n]))) == Compare(RowsOf(InForce(cs)))
  {
    hide RowsOf, Compare, Loaded, Generated, Enforce, InForce;
    if cs != [] {
      var before, n := cs[..|cs| - 1], LastLoad(cs);
      KernelOnEveryRun(k, before);
      RowsOnEveryRun(k, before);
      RowsOnEveryRun(k, cs);
      if n == |cs| {
        assert cs[..n] == cs;
      } else {
        assert cs[..n] == before[..n];
      }
    }
  }

  // ---------------------------------------------------------------- when the rules are the present ones

  /** Two sets of policies agree on what neither patterns nor trusted processes record: which
      export policies name processes, which directories do, and the read-write flags. */
  ghost predicate SameUnseen(f: Force, g: Force) {
    && |Active(f)| == |Active(g)| && SameExports(Active(f), Active(g), |Active(f)|)
    && |f.protects| == |g.protects| && SameProtects(f.protects, g.protects, |f.protects|)
  }

  ghost predicate SameLengths(r: Rows, s: Rows) {
    && |r.self.rules| == |s.self.rules| && |r.trust.rules| == |s.trust.rules| && |r.exiport.rules| == |s.exiport.rules|
    && |r.protect.rules| == |s.protect.rules| && |r.white.rules| == |s.white.rules|
    && |r.inc.rules| == |s.inc.rules| && |r.exc.rules| == |s.exc.rules|
  }

  /** Rules joined from lists of equal lengths are equal list by list. */
  lemma RulesByFamily(r: Rows, s: Rows)
    requires SameLengths(r, s)
    ensures AllRules(r) == AllRules(s) <==>
            && r.self.rules == s.self.rules && r.trust.rules == s.trust.rules && r.exiport.rules == s.exiport.rules
            && r.protect.rules == s.protect.rules && r.white.rules == s.white.rules
            && r.inc.rules == s.inc.rules && r.exc.rules == s.exc.rules
  {
    var a2, b2 := r.self.rules + r.trust.rules, s.self.rules + s.trust.rules;
    ConcatEq(r.self.rules, r.trust.rules, s.self.rules, s.trust.rules);
    var a3, b3 := a2 + r.exiport.rules, b2 + s.exiport.rules;
    ConcatEq(a2, r.exiport.rules, b2, s.exiport.rules);
    var a4, b4 := a3 + r.protect.rules, b3 + s.protect.rules;
    ConcatEq(a3, r.protect.rules, b3, s.protect.rules);
    var a5, b5 := a4 + r.white.rules, b4 + s.white.rules;
    ConcatEq(a4, r.white.rules, b4, s.white.rules);
    var a6, b6 := a5 + r.inc.rules, b5 + s.inc.rules;
    ConcatEq(a5, r.inc.rules, b5, s.inc.rules);
    ConcatEq(a6, r.exc.rules, b6, s.exc.rules);
  }

  lemma SelfDecided(f: Force, g: Force)
    requires RowsOf(f).self.pats == RowsOf(g).self.pats
    ensures RowsOf(f).self.rules == RowsOf(g).self.rules
  {
    assert |SelfFamily().pats| == |SELF_KEYS|;
  }

  lemma TrustDecided(f: Force, g: Force)
    requires RowsOf(f).trust.pats == RowsOf(g).trust.pats
    ensures RowsOf(f).trust.rules == RowsOf(g).trust.rules
  {
    hide TrustStep, SelfFamily, ExportStep, ProtectStep;
    TrustRulesSame(f.trust, f.trust, |f.trust|);
    TrustRulesSame(g.trust, g.trust, |g.trust|);
    TrustRulesSame(f.trust, g.trust, |f.trust|);
  }

  lemma ExportsDecided(f: Force, g: Force)
    requires RowsOf(f).exiport.pats == RowsOf(g).exiport.pats
    ensures |Active(f)| == |Active(g)| && |RowsOf(f).exiport.rules| == |RowsOf(g).exiport.rules|
    ensures RowsOf(f).exiport.rules == RowsOf(g).exiport.rules <==> SameExports(Active(f), Active(g), |Active(f)|)
  {
    hide TrustUpTo, SelfFamily, ExportUpTo, ProtectUpTo;
    ExportSizes(Active(f), |Active(f)|);
    ExportSizes(Active(g), |Active(g)|);
    ExportRulesIff(Active(f), Active(g), |Active(f)|);
  }

  lemma ProtectsDecided(f: Force, g: Force)
    requires var x, y := ProtectUpTo(f.protects, |f.protects|), ProtectUpTo(g.protects, |g.protects|); SamePats(x, y)
    ensures |f.protects| == |g.protects|
    ensures var x, y := ProtectUpTo(f.protects, |f.protects|), ProtectUpTo(g.protects, |g.protects|);
            SameSizes(x, y) && (SameRules(x, y) <==> SameProtects(f.protects, g.protects, |f.protects|))
  {
    hide ProtectUpTo;
    ProtectSizes(f.protects, |f.protects|);
    ProtectSizes(g.protects, |g.protects|);
    ProtectRulesIff(f.protects, g.protects, |f.protects|);
    ProtectRuleSizes(f.protects, g.protects, |f.protects|);
  }

  /** Policies that look the same to the comparison generate the same rules if and only if
      they also agree on what it does not see. */
  lemma RulesDecided(f: Force, g: Force)
    requires Compare(RowsOf(f)) == Compare(RowsOf(g))
    ensures AllRules(RowsOf(f)) == AllRules(RowsOf(g)) <==> SameUnseen(f, g)
  {
    hide TrustUpTo, SelfFamily, ExportUpTo, ProtectUpTo, Active, SameExports, SameProtects;
    SelfDecided(f, g);
    TrustDecided(f, g);
    ExportsDecided(f, g);
    ProtectsDecided(f, g);
    hide AllRules;
    RulesByFamily(RowsOf(f), RowsOf(g));
  }

  /** Rows without a pattern have no rules. */
  lemma NoPatternsNoRules(r: Rows)
    requires RowsOk(r) && Compare(r) == Compare(NO_ROWS)
    ensures AllRules(r) == []
  {
    hide Distinct, Covered, Trusted, OfKind, Names;
  }

  /** After any calls, from any kernel state, the kernel's rules are the present ones if and
      only if the policies in force at the last reload and those in force now agree on what
      the comparison does not see. Before any reload nothing is to be there. */
  lemma RulesCurrentIff(k: Kernel, cs: seq<Call>)
    ensures var m := Run(Boot(k), cs);
            m.kernel.rules == AllRules(m.rows) <==>
            if LastLoad(cs) == 0 then k.rules == [] else SameUnseen(InForce(cs[..LastLoad(cs)]), InForce(cs))
  {
    hide RowsOf, Compare, AllRules, InForce, LastLoad, SameUnseen, Run, RowsOk;
    KernelOnEveryRun(k, cs);
    RowsOnEveryRun(k, cs);
    if LastLoad(cs) == 0 {
      TablesOnEveryRun(k, cs);
      NoPatternsNoRules(Run(Boot(k), cs).rows);
    } else {
      RulesDecided(InForce(cs[..LastLoad(cs)]), InForce(cs));
    }
  }

  // ---------------------------------------------------------------- comparing text

  /** The machine as the source has it: it compares the generated texts. */
  function StepText(m: Machine, c: Call): Machine {
    var rows := Generated(m.rows, c);
    if Texts(Compare(rows)) != Texts(Compare(m.rows)) then Machine(rows, Loaded(rows), m.loads + 1)
    else m.(rows := rows)
  }

  function RunText(m: Machine, cs: seq<Call>): Machine {
    if cs == [] then m else StepText(RunText(m, cs[..|cs| - 1]), cs[|cs| - 1])
  }

  /** Over calls whose fields are free of the separators, the machine that compares texts is
      the machine that compares rows, and its rows stay free of them. */
  lemma {:induction false} TextMachineIsRowMachine(k: Kernel, cs: seq<Call>)
    requires forall i :: 0 <= i < |cs| ==> FreeCall(cs[i])
    ensures RunText(Boot(k), cs) == Run(Boot(k), cs) && Clean(Compare(Run(Boot(k), cs).rows))
  {
    hide Clean, Compare, Generated, FreeCall, Texts, Loaded;
    if cs == [] {
      NoRowsClean();
    } else {
      var n := |cs| - 1;
      TextMachineIsRowMachine(k, cs[..n]);
      var rows := Run(Boot(k), cs[..n]).rows;
      GeneratedClean(rows, cs[n]);
      TextDecides(Compare(Generated(rows, cs[n])), Compare(rows));
    }
  }
}
