/** What the generated rows say about a path (crates/pattern/src/pattern_rules_mgr.rs).

    A pattern is looked for in a path like the content of a packet: `depth` bounds where the
    key may end, a negative `offset` where it may begin, counted from the end, and `pkt_len=-1`
    asks for a path of the key's length. `case_offset` and `isnot_extend` do not restrict the
    place. */
module PatternMeaning {
  import opened Common
  import opened PatternRules
  import opened PatternRuns

  // ---------------------------------------------------------------- patterns and paths

  predicate KeyAt(key: string, path: string, k: int) {
    0 <= k && k + |key| <= |path| && path[k..k + |key|] == key
  }

  predicate Allows(a: Attr, key: string, path: string, k: int) {
    match a
    case NotExtend => true
    case CaseOffset => true
    case Depth(n) => k + |key| <= n
    case WholeLength => |path| == |key|
    case FromEnd(n) => k >= |path| - n
  }

  ghost predicate Covers(p: Pattern, path: string) {
    exists k :: KeyAt(p.key, path, k) && forall a :: a in p.attrs ==> Allows(a, p.key, path, k)
  }

  predicate EndsWith(path: string, s: string) {
    |s| <= |path| && path[|path| - |s|..] == s
  }

  predicate Placed(a: Attr) {
    a.Depth? || a.WholeLength? || a.FromEnd?
  }

  /** The attribute that places a key at the beginning, as the whole, or at the end. */
  lemma CoversPrefix(p: Pattern, path: string)
    requires Depth(|p.key|) in p.attrs && forall a :: a in p.attrs && Placed(a) ==> a == Depth(|p.key|)
    ensures Covers(p, path) <==> p.key <= path
  {
    if p.key <= path {
      assert KeyAt(p.key, path, 0);
    }
  }

  lemma CoversWhole(p: Pattern, path: string)
    requires WholeLength in p.attrs && forall a :: a in p.attrs && Placed(a) ==> a == WholeLength
    ensures Covers(p, path) <==> p.key == path
  {
    if p.key == path {
      assert KeyAt(p.key, path, 0);
    }
  }

  lemma CoversSuffix(p: Pattern, path: string)
    requires p.attrs == [FromEnd(|p.key|)]
    ensures Covers(p, path) <==> EndsWith(path, p.key)
  {
    assert p.attrs[0] in p.attrs;
    if EndsWith(path, p.key) {
      assert KeyAt(p.key, path, |path| - |p.key|);
    }
  }

  lemma CoversAnywhere(p: Pattern, path: string)
    requires p.attrs == []
    ensures Covers(p, path) <==> exists k :: KeyAt(p.key, path, k)
  {
  }

  // ---------------------------------------------------------------- one row of each family

  /** A directory pattern of type 1 covers what begins with the directory, the other types only
      the directory itself; the sub-directory mark is set for type 1 without extension. */
  lemma DirPatternMeans(i: nat, d: Protect, path: string)
    ensures var p := DirPattern(i, d);
            && p.name == ProtectDir(i) && p.key == d.dir && CaseOffset in p.attrs
            && (Covers(p, path) <==> if d.typ == 1 then d.dir <= path else d.dir == path)
            && (NotExtend in p.attrs <==> d.typ == 1 && d.isExtend == 0)
  {
    if d.typ == 1 {
      CoversPrefix(DirPattern(i, d), path);
    } else {
      CoversWhole(DirPattern(i, d), path);
    }
  }

  /** The same for a trusted directory, whose mark does not depend on the type. */
  ghost predicate TrustSays(f: Family, i: nat, d: TrustDir)
    requires i < |f.pats| && i < |f.rules|
  {
    var p := f.pats[i];
    && p.name == TrueDir(i) && p.key == d.dir && CaseOffset in p.attrs
    && (forall path :: Covers(p, path) <==> if d.typ == 1 then d.dir <= path else d.dir == path)
    && (NotExtend in p.attrs <==> d.isExtend == 0)
    && f.rules[i] == Rule([TrueDir(i)], 0, None, None, None, None)
  }

  /** An export policy of type 1 covers a suffix behind a dot, the other types a prefix; its rule
      is an inclusion exactly for type 1. */
  ghost predicate ExportSays(f: Family, i: nat, e: Export)
    requires i < |f.pats| && i < |f.rules|
  {
    var p, r := f.pats[i], f.rules[i];
    && p.name == Exiport(i)
    && (forall path :: Covers(p, path) <==> if e.typ == 1 then EndsWith(path, "." + e.fileType) else e.fileType <= path)
    && r.patterns == [Exiport(i)] && r.kind == 1 && r.ruleIdx == None && r.protectRw == None
    && r.action == (if e.typ == 1 then Some(3) else None)
  }

  lemma {:induction false} TrustRow(ds: seq<TrustDir>, n: nat, i: nat)
    requires i < n <= |ds|
    ensures var f := TrustUpTo(ds, n); |f.pats| == |f.rules| == n && TrustSays(f, i, ds[i])
  {
    var f, f0 := TrustUpTo(ds, n), TrustUpTo(ds, n - 1);
    if n > 1 {
      TrustRow(ds, n - 1, if i < n - 1 then i else 0);
    }
    assert |f0.pats| == |f0.rules| == n - 1;
    if i < n - 1 {
      assert f.pats[i] == f0.pats[i] && f.rules[i] == f0.rules[i];
    } else {
      var p := f.pats[i];
      forall path
        ensures Covers(p, path) <==> if ds[i].typ == 1 then ds[i].dir <= path else ds[i].dir == path
      {
        if ds[i].typ == 1 {
          CoversPrefix(p, path);
        } else {
          CoversWhole(p, path);
        }
      }
    }
  }

  lemma ExportStepSays(x: ExportRows, i: nat, e: Export)
    requires |x.fam.pats| == |x.fam.rules| == i
    ensures var f := ExportStep(x, i, e).fam; |f.pats| == |f.rules| == i + 1 && ExportSays(f, i, e)
  {
    hide Covers;
    var p := ExportStep(x, i, e).fam.pats[i];
    forall path
      ensures Covers(p, path) <==> if e.typ == 1 then EndsWith(path, "." + e.fileType) else e.fileType <= path
    {
      if e.typ == 1 {
        CoversSuffix(p, path);
      } else {
        CoversPrefix(p, path);
      }
    }
  }

  lemma {:induction false} ExportRow(es: seq<Export>, n: nat, i: nat)
    requires i < n <= |es|
    ensures var f := ExportUpTo(es, n).fam; |f.pats| == |f.rules| == n && ExportSays(f, i, es[i])
  {
    var x := ExportUpTo(es, n - 1);
    ExportSizes(es, n - 1);
    if i < n - 1 {
      ExportRow(es, n - 1, i);
      var f := ExportUpTo(es, n).fam;
      assert f.pats[i] == x.fam.pats[i] && f.rules[i] == x.fam.rules[i];
    }
    hide ExportSays, ExportStep;
    ExportStepSays(x, n - 1, es[n - 1]);
  }

  /** The first fifty policies of a download and their rows, one by one and in order. */
  lemma TrustMeaning(r: Rows, ds: seq<TrustDir>, i: nat)
    requires i < |ds| && i < 50
    ensures var f := Generated(r, SetGlobalTrustDir(ds)).trust;
            |f.pats| == |f.rules| == (if |ds| < 50 then |ds| else 50) && TrustSays(f, i, ds[i])
  {
    hide TrustSays;
    TrustRow(Taken(ds), |Taken(ds)|, i);
  }

  lemma ExportMeaning(r: Rows, es: seq<Export>, i: nat)
    requires i < |es| && i < 50
    ensures var f := Generated(r, SetExiportDir(es)).exiport;
            |f.pats| == |f.rules| == (if |es| < 50 then |es| else 50) && ExportSays(f, i, es[i])
  {
    hide ExportSays;
    ExportRow(Taken(es), |Taken(es)|, i);
  }

  // ---------------------------------------------------------------- the rows of the protected directories

  /** The number of the trusted processes of directory i. */
  function Number(ds: seq<Protect>, i: nat): Option<nat>
    requires i < |ds|
  {
    Tpnc(ProtectUpTo(ds, i).number, ds[i])
  }

  lemma NoRowsYet(ds: seq<Protect>)
    ensures ProtectUpTo(ds, 0) == ProtectRows(Family([], []), Family([], []), Family([], []), Family([], []), [], 0)
  {
  }

  /** What the n-th directory adds. */
  lemma NextRows(ds: seq<Protect>, n: nat)
    requires 0 < n <= |ds|
    ensures var x, y, d, i := ProtectUpTo(ds, n - 1), ProtectUpTo(ds, n), ds[n - 1], n - 1;
            var white, inc := Parts(d.isWhite, '|'), Parts(d.includeFile, '|');
            && y.dirs == Append(x.dirs, [DirPattern(i, d)], DirRules(i, d, Number(ds, i)))
            && y.white == Append(x.white, WhitePats(i, white), WhiteRules(i, white))
            && y.inc == Append(x.inc, IncPats(i, inc), IncRules(i, d, inc, Number(ds, i)))
            && y.exc == Append(x.exc, ExcPats(i, ExcParts(d)), ExcRules(i, ExcParts(d)))
            && y.procs == x.procs + (if d.whiteHash != "" then Procs(Split(d.whiteHash, ','), x.number + 1, 88) else [])
            && y.number == (if d.whiteHash != "" then x.number + 1 else x.number)
            && Number(ds, i) == (if d.whiteHash != "" then Some(x.number + 1) else None)
  {
    hide DirPattern, DirRules, Parts, WhitePats, WhiteRules, IncPats, IncRules, ExcPats, ExcRules, Procs, Split;
  }

  lemma {:induction false} DirRow(ds: seq<Protect>, n: nat, i: nat)
    requires i < n <= |ds|
    ensures var pats := ProtectUpTo(ds, n).dirs.pats; |pats| == n && pats[i] == DirPattern(i, ds[i])
  {
    hide *;
    NextRows(ds, n);
    ProtectSizes(ds, n - 1);
    if i < n - 1 {
      DirRow(ds, n - 1, i);
    }
    Appended(ProtectUpTo(ds, n - 1).dirs, [DirPattern(n - 1, ds[n - 1])], DirRules(n - 1, ds[n - 1], Number(ds, n - 1)));
  }

  lemma Appended(f: Family, pats: seq<Pattern>, rules: seq<Rule>)
    ensures Append(f, pats, rules) == Family(f.pats + pats, f.rules + rules)
  {
  }

  lemma {:induction false} DirRuleRows(ds: seq<Protect>, n: nat, r: Rule)
    requires n <= |ds|
    ensures r in ProtectUpTo(ds, n).dirs.rules <==> exists i :: 0 <= i < n && r in DirRules(i, ds[i], Number(ds, i))
  {
    hide *;
    if n == 0 {
      NoRowsYet(ds);
    } else {
      NextRows(ds, n);
      DirRuleRows(ds, n - 1, r);
      Appended(ProtectUpTo(ds, n - 1).dirs, [DirPattern(n - 1, ds[n - 1])], DirRules(n - 1, ds[n - 1], Number(ds, n - 1)));
    }
  }

  lemma {:induction false} WhiteRows(ds: seq<Protect>, n: nat, p: Pattern, r: Rule)
    requires n <= |ds|
    ensures p in ProtectUpTo(ds, n).white.pats <==> exists i :: 0 <= i < n && p in WhitePats(i, Parts(ds[i].isWhite, '|'))
    ensures r in ProtectUpTo(ds, n).white.rules <==> exists i :: 0 <= i < n && r in WhiteRules(i, Parts(ds[i].isWhite, '|'))
  {
    hide *;
    if n == 0 {
      NoRowsYet(ds);
    } else {
      NextRows(ds, n);
      WhiteRows(ds, n - 1, p, r);
      var parts := Parts(ds[n - 1].isWhite, '|');
      Appended(ProtectUpTo(ds, n - 1).white, WhitePats(n - 1, parts), WhiteRules(n - 1, parts));
    }
  }

  lemma {:induction false} IncRows(ds: seq<Protect>, n: nat, p: Pattern, r: Rule)
    requires n <= |ds|
    ensures p in ProtectUpTo(ds, n).inc.pats <==> exists i :: 0 <= i < n && p in IncPats(i, Parts(ds[i].includeFile, '|'))
    ensures r in ProtectUpTo(ds, n).inc.rules <==>
            exists i :: 0 <= i < n && r in IncRules(i, ds[i], Parts(ds[i].includeFile, '|'), Number(ds, i))
  {
    hide *;
    if n == 0 {
      NoRowsYet(ds);
    } else {
      NextRows(ds, n);
      IncRows(ds, n - 1, p, r);
      var d := ds[n - 1];
      var parts := Parts(d.includeFile, '|');
      Appended(ProtectUpTo(ds, n - 1).inc, IncPats(n - 1, parts), IncRules(n - 1, d, parts, Number(ds, n - 1)));
    }
  }

  lemma {:induction false} ExcRows(ds: seq<Protect>, n: nat, p: Pattern, r: Rule)
    requires n <= |ds|
    ensures p in ProtectUpTo(ds, n).exc.pats <==> exists i :: 0 <= i < n && p in ExcPats(i, ExcParts(ds[i]))
    ensures r in ProtectUpTo(ds, n).exc.rules <==> exists i :: 0 <= i < n && r in ExcRules(i, ExcParts(ds[i]))
  {
    hide *;
    if n == 0 {
      NoRowsYet(ds);
    } else {
      NextRows(ds, n);
      ExcRows(ds, n - 1, p, r);
      var parts := ExcParts(ds[n - 1]);
      Appended(ProtectUpTo(ds, n - 1).exc, ExcPats(n - 1, parts), ExcRules(n - 1, parts));
    }
  }

  // ---------------------------------------------------------------- trusted processes

  /** A rule with a number trusts exactly the hashes of its own policy; a rule without one belongs
      to a policy that names none. */
  ghost predicate Trusts(procs: seq<ProcRow>, tag: nat, tpnc: Option<nat>, hashes: seq<string>) {
    match tpnc
    case None => hashes == []
    case Some(k) => hashes != [] && forall h :: ProcRow(h, k, tag) in procs <==> h in hashes
  }

  ghost predicate NumbersBelow(procs: seq<ProcRow>, tag: nat, number: nat) {
    forall q :: q in procs ==> q.tag == tag && q.number <= number
  }

  lemma ProcsAre(hashes: seq<string>, k: nat, tag: nat, q: ProcRow)
    ensures q in Procs(hashes, k, tag) <==> q.number == k && q.tag == tag && q.hash in hashes
  {
    var rows := Procs(hashes, k, tag);
    if q.number == k && q.tag == tag && q.hash in hashes {
      var i :| 0 <= i < |hashes| && hashes[i] == q.hash;
      assert rows[i] == q;
    }
  }

  /** Rows with a new number leave the old numbers alone. */
  lemma TrustsMore(procs: seq<ProcRow>, tag: nat, number: nat, tpnc: Option<nat>, hashes: seq<string>, more: seq<string>)
    requires Trusts(procs, tag, tpnc, hashes) && (tpnc.Some? ==> tpnc.value <= number)
    ensures Trusts(procs + Procs(more, number + 1, tag), tag, tpnc, hashes)
  {
    hide Procs;
    if tpnc.Some? {
      forall h
        ensures ProcRow(h, tpnc.value, tag) in procs + Procs(more, number + 1, tag) <==> h in hashes
      {
        ProcsAre(more, number + 1, tag, ProcRow(h, tpnc.value, tag));
      }
    }
  }

  lemma TrustsNew(procs: seq<ProcRow>, tag: nat, number: nat, hashes: seq<string>)
    requires NumbersBelow(procs, tag, number) && hashes != []
    ensures Trusts(procs + Procs(hashes, number + 1, tag), tag, Some(number + 1), hashes)
    ensures NumbersBelow(procs + Procs(hashes, number + 1, tag), tag, number + 1)
  {
    hide Procs;
    forall q
      ensures q in procs + Procs(hashes, number + 1, tag) <==> q in procs || (q.number == number + 1 && q.tag == tag && q.hash in hashes)
    {
      ProcsAre(hashes, number + 1, tag, q);
    }
  }

  lemma {:induction false} ExportTrust(es: seq<Export>, n: nat, i: nat)
    requires n <= |es|
    ensures var x := ExportUpTo(es, n); NumbersBelow(x.procs, 99, x.number)
    ensures var x := ExportUpTo(es, n);
            i < n ==> i < |x.fam.rules| && Trusts(x.procs, 99, x.fam.rules[i].tpnc, es[i].hashes)
                      && (x.fam.rules[i].tpnc.Some? ==> x.fam.rules[i].tpnc.value <= x.number)
  {
    hide Trusts, NumbersBelow, Procs;
    if n == 0 {
      NoNumbers(99);
    } else {
      var x, e := ExportUpTo(es, n - 1), es[n - 1];
      ExportTrust(es, n - 1, i);
      ExportSizes(es, n - 1);
      if e.hashes != [] {
        TrustsNew(x.procs, 99, x.number, e.hashes);
        if i < n - 1 {
          TrustsMore(x.procs, 99, x.number, x.fam.rules[i].tpnc, es[i].hashes, e.hashes);
        }
      } else {
        assert x.procs + [] == x.procs;
        TrustsNone(x.procs, 99);
      }
    }
  }

  lemma NoNumbers(tag: nat)
    ensures NumbersBelow([], tag, 0)
  {
  }

  lemma TrustsNone(procs: seq<ProcRow>, tag: nat)
    ensures Trusts(procs, tag, None, [])
  {
  }

  /** The hashes a directory trusts. */
  function Hashes(d: Protect): seq<string> {
    if d.whiteHash == "" then [] else Split(d.whiteHash, ',')
  }

  lemma HashesAre(d: Protect)
    ensures Hashes(d) == if d.whiteHash == "" then [] else Split(d.whiteHash, ',')
  {
  }

  lemma {:induction false} ProtectTrust(ds: seq<Protect>, n: nat, i: nat)
    requires n <= |ds|
    ensures var x := ProtectUpTo(ds, n); NumbersBelow(x.procs, 88, x.number)
    ensures var x := ProtectUpTo(ds, n);
            i < n ==> Trusts(x.procs, 88, Number(ds, i), Hashes(ds[i])) && (Number(ds, i).Some? ==> Number(ds, i).value <= x.number)
  {
    hide *;
    if n == 0 {
      NoRowsYet(ds);
      NoNumbers(88);
    } else {
      var x, d := ProtectUpTo(ds, n - 1), ds[n - 1];
      NextRows(ds, n);
      ProtectTrust(ds, n - 1, i);
      HashesAre(d);
      if d.whiteHash != "" {
        TrustsNew(x.procs, 88, x.number, Split(d.whiteHash, ','));
        if i < n - 1 {
          TrustsMore(x.procs, 88, x.number, Number(ds, i), Hashes(ds[i]), Split(d.whiteHash, ','));
        }
      } else {
        assert x.procs + [] == x.procs;
        TrustsNone(x.procs, 88);
      }
    }
  }

  // ---------------------------------------------------------------- single rows of list fields

  lemma IncRowIs(i: nat, d: Protect, parts: seq<string>, tpnc: Option<nat>, p: Pattern, r: Rule)
    ensures p in IncPats(i, parts) <==>
            exists j :: 0 <= j < |parts| && p == Pattern(IncFileExe(i, j), "." + parts[j], [FromEnd(|parts[j]| + 1)])
    ensures r in IncRules(i, d, parts, tpnc) <==>
            exists j :: 0 <= j < |parts| && r == Rule([ProtectDir(i), IncFileExe(i, j)], 2, Some(3), Some(i), Some(d.protectRw), tpnc)
  {
    var pats, rules := IncPats(i, parts), IncRules(i, d, parts, tpnc);
    assert forall j :: 0 <= j < |parts| ==> pats[j] == Pattern(IncFileExe(i, j), "." + parts[j], [FromEnd(|parts[j]| + 1)]);
    assert forall j :: 0 <= j < |parts| ==> rules[j] == Rule([ProtectDir(i), IncFileExe(i, j)], 2, Some(3), Some(i), Some(d.protectRw), tpnc);
  }

  lemma ExcRowIs(i: nat, parts: seq<string>, p: Pattern, r: Rule)
    ensures p in ExcPats(i, parts) <==>
            exists j :: 0 <= j < |parts| && p == Pattern(ExcFileExe(i, j), "." + parts[j], [FromEnd(|parts[j]| + 1)])
    ensures r in ExcRules(i, parts) <==>
            exists j :: 0 <= j < |parts| && r == Rule([ProtectDir(i), ExcFileExe(i, j)], 2, Some(2), Some(i), None, None)
  {
    var pats, rules := ExcPats(i, parts), ExcRules(i, parts);
    assert forall j :: 0 <= j < |parts| ==> pats[j] == Pattern(ExcFileExe(i, j), "." + parts[j], [FromEnd(|parts[j]| + 1)]);
    assert forall j :: 0 <= j < |parts| ==> rules[j] == Rule([ProtectDir(i), ExcFileExe(i, j)], 2, Some(2), Some(i), None, None);
  }

  lemma WhiteRowIs(i: nat, parts: seq<string>, p: Pattern, r: Rule)
    ensures p in WhitePats(i, parts) <==> exists j :: 0 <= j < |parts| && p == Pattern(ExcludeDir(i, j), parts[j], [])
    ensures r in WhiteRules(i, parts) <==>
            exists j :: 0 <= j < |parts| && r == Rule([ExcludeDir(i, j)], 2, Some(1), Some(i), None, None)
  {
    var pats, rules := WhitePats(i, parts), WhiteRules(i, parts);
    assert forall j :: 0 <= j < |parts| ==> pats[j] == Pattern(ExcludeDir(i, j), parts[j], []);
    assert forall j :: 0 <= j < |parts| ==> rules[j] == Rule([ExcludeDir(i, j)], 2, Some(1), Some(i), None, None);
  }

  // ---------------------------------------------------------------- looking up names in the joined tables

  lemma RowsOfOk(f: Force)
    ensures RowsOk(RowsOf(f))
  {
    hide FamilyOk, Below, TrustUpTo, ExportUpTo, SelfFamily, ProtectUpTo;
    if f.self {
      SelfOk();
    } else {
      NoFamilyOk(0);
    }
    TrustOk(f.trust, |f.trust|);
    ExportOk(f.exports, |f.exports|);
    ClearedOk(ExportUpTo(f.exports, |f.exports|).procs);
    assert ExportUpTo([], 0).fam == NO_FAMILY by { NoExports(); }
    ProtectUpToOk(f.protects, |f.protects|);
  }

  lemma NoExports()
    ensures ExportUpTo([], 0).fam == NO_FAMILY
  {
  }

  /** A pattern of the joined table is in the family that its name says. */
  lemma InFamily(f: Force, p: Pattern)
    ensures var r := RowsOf(f);
            p in AllPats(r) <==>
            match Kind(p.name)
            case 0 => p in r.self.pats
            case 1 => p in r.trust.pats
            case 2 => p in r.exiport.pats
            case 3 => p in r.protect.pats
            case 4 => p in r.white.pats
            case 5 => p in r.inc.pats
            case _ => p in r.exc.pats
  {
    RowsOfOk(f);
    hide RowsOf, Distinct, Covered, Trusted, Names;
  }

  ghost predicate Found(pats: seq<Pattern>, name: Name, path: string) {
    exists p :: p in pats && p.name == name && Covers(p, path)
  }

  predicate Under(d: Protect, path: string) {
    if d.typ == 1 then d.dir <= path else d.dir == path
  }

  lemma DirFound(f: Force, i: nat, path: string)
    requires i < |f.protects|
    ensures Found(AllPats(RowsOf(f)), ProtectDir(i), path) <==> Under(f.protects[i], path)
  {
    hide Covers, AllPats, RowsOf, DirPattern;
    var ds, n := f.protects, |f.protects|;
    var mine := DirPattern(i, ds[i]);
    DirPatternMeans(i, ds[i], path);
    ProtectFamilies(f);
    DirRow(ds, n, i);
    InFamily(f, mine);
    assert ProtectUpTo(ds, n).dirs.pats[i] == mine;
    forall p | p in AllPats(RowsOf(f)) && p.name == ProtectDir(i)
      ensures p == mine
    {
      InFamily(f, p);
      var j :| 0 <= j < |ProtectUpTo(ds, n).dirs.pats| && ProtectUpTo(ds, n).dirs.pats[j] == p;
      DirRow(ds, n, j);
      DirPatternMeans(j, ds[j], path);
    }
  }

  lemma ProtectFamilies(f: Force)
    ensures var x, r := ProtectUpTo(f.protects, |f.protects|), RowsOf(f);
            r.protect == x.dirs && r.white == x.white && r.inc == x.inc && r.exc == x.exc && r.protectProcs == x.procs
  {
    hide ProtectUpTo;
  }

  lemma IncFound(f: Force, i: nat, j: nat, path: string)
    requires i < |f.protects|
    ensures var parts := Parts(f.protects[i].includeFile, '|');
            Found(AllPats(RowsOf(f)), IncFileExe(i, j), path) <==> j < |parts| && EndsWith(path, "." + parts[j])
  {
    hide Covers, AllPats, RowsOf, IncPats, IncRules, Parts, ProtectUpTo;
    var ds, parts := f.protects, Parts(f.protects[i].includeFile, '|');
    ProtectFamilies(f);
    forall p: Pattern | p.name == IncFileExe(i, j)
      ensures p in AllPats(RowsOf(f)) <==> j < |parts| && p == Pattern(IncFileExe(i, j), "." + parts[j], [FromEnd(|parts[j]| + 1)])
    {
      InFamily(f, p);
      IncRows(ds, |ds|, p, AnyRule());
      forall i' | 0 <= i' < |ds|
        ensures p in IncPats(i', Parts(ds[i'].includeFile, '|')) <==>
                exists j' :: 0 <= j' < |Parts(ds[i'].includeFile, '|')| &&
                  p == Pattern(IncFileExe(i', j'), "." + Parts(ds[i'].includeFile, '|')[j'], [FromEnd(|Parts(ds[i'].includeFile, '|')[j']| + 1)])
      {
        IncRowIs(i', ds[i'], Parts(ds[i'].includeFile, '|'), None, p, AnyRule());
      }
    }
    if j < |parts| {
      CoversSuffix(Pattern(IncFileExe(i, j), "." + parts[j], [FromEnd(|parts[j]| + 1)]), path);
    }
  }

  lemma ExcFound(f: Force, i: nat, j: nat, path: string)
    requires i < |f.protects|
    ensures var parts := ExcParts(f.protects[i]);
            Found(AllPats(RowsOf(f)), ExcFileExe(i, j), path) <==> j < |parts| && EndsWith(path, "." + parts[j])
  {
    hide Covers, AllPats, RowsOf, ExcPats, ExcRules, ExcParts, ProtectUpTo;
    var ds, parts := f.protects, ExcParts(f.protects[i]);
    ProtectFamilies(f);
    forall p: Pattern | p.name == ExcFileExe(i, j)
      ensures p in AllPats(RowsOf(f)) <==> j < |parts| && p == Pattern(ExcFileExe(i, j), "." + parts[j], [FromEnd(|parts[j]| + 1)])
    {
      InFamily(f, p);
      ExcRows(ds, |ds|, p, AnyRule());
      forall i' | 0 <= i' < |ds|
        ensures p in ExcPats(i', ExcParts(ds[i'])) <==>
                exists j' :: 0 <= j' < |ExcParts(ds[i'])| &&
                  p == Pattern(ExcFileExe(i', j'), "." + ExcParts(ds[i'])[j'], [FromEnd(|ExcParts(ds[i'])[j']| + 1)])
      {
        ExcRowIs(i', ExcParts(ds[i']), p, AnyRule());
      }
    }
    if j < |parts| {
      CoversSuffix(Pattern(ExcFileExe(i, j), "." + parts[j], [FromEnd(|parts[j]| + 1)]), path);
    }
  }

  lemma WhiteFound(f: Force, i: nat, j: nat, path: string)
    requires i < |f.protects|
    ensures var parts := Parts(f.protects[i].isWhite, '|');
            Found(AllPats(RowsOf(f)), ExcludeDir(i, j), path) <==> j < |parts| && exists k :: KeyAt(parts[j], path, k)
  {
    hide Covers, AllPats, RowsOf, WhitePats, WhiteRules, Parts, ProtectUpTo;
    var ds, parts := f.protects, Parts(f.protects[i].isWhite, '|');
    ProtectFamilies(f);
    forall p: Pattern | p.name == ExcludeDir(i, j)
      ensures p in AllPats(RowsOf(f)) <==> j < |parts| && p == Pattern(ExcludeDir(i, j), parts[j], [])
    {
      InFamily(f, p);
      WhiteRows(ds, |ds|, p, AnyRule());
      forall i' | 0 <= i' < |ds|
        ensures p in WhitePats(i', Parts(ds[i'].isWhite, '|')) <==>
                exists j' :: 0 <= j' < |Parts(ds[i'].isWhite, '|')| && p == Pattern(ExcludeDir(i', j'), Parts(ds[i'].isWhite, '|')[j'], [])
      {
        WhiteRowIs(i', Parts(ds[i'].isWhite, '|'), p, AnyRule());
      }
    }
    if j < |parts| {
      CoversAnywhere(Pattern(ExcludeDir(i, j), parts[j], []), path);
    }
  }

  function AnyRule(): Rule {
    Rule([], 0, None, None, None, None)
  }

  // ---------------------------------------------------------------- what the rules say about a path

  /** All patterns of the rule cover the path. */
  ghost predicate Applies(pats: seq<Pattern>, r: Rule, path: string) {
    forall name :: name in r.patterns ==> Found(pats, name, path)
  }

  /** Some rule for directory i with this action applies. */
  ghost predicate Says(r: Rows, i: nat, action: Option<nat>, path: string) {
    exists rule :: rule in AllRules(r) && rule.kind == 2 && rule.ruleIdx == Some(i) && rule.action == action && Applies(AllPats(r), rule, path)
  }

  lemma {:induction false} TrustKinds(ds: seq<TrustDir>, n: nat)
    requires n <= |ds|
    ensures forall r :: r in TrustUpTo(ds, n).rules ==> r.kind == 0
  {
    if n > 0 {
      TrustKinds(ds, n - 1);
    }
  }

  lemma {:induction false} ExportKinds(es: seq<Export>, n: nat)
    requires n <= |es|
    ensures forall r :: r in ExportUpTo(es, n).fam.rules ==> r.kind == 1
  {
    if n > 0 {
      ExportKinds(es, n - 1);
    }
  }

  /** The rules of kind 2 are those of the protected directories. */
  lemma DirectoryRules(f: Force, r: Rule)
    requires r.kind == 2
    ensures var x := ProtectUpTo(f.protects, |f.protects|);
            r in AllRules(RowsOf(f)) <==> r in x.dirs.rules || r in x.white.rules || r in x.inc.rules || r in x.exc.rules
  {
    hide TrustUpTo, ExportUpTo, ProtectUpTo;
    TrustKinds(f.trust, |f.trust|);
    ExportKinds(Active(f), |Active(f)|);
    assert forall s :: s in SelfFamily().rules ==> s.kind == 3;
  }

  /** The rules for directory i, one by one. */
  lemma RulesFor(f: Force, i: nat, r: Rule)
    requires i < |f.protects| && r.kind == 2 && r.ruleIdx == Some(i)
    ensures var d := f.protects[i];
            r in AllRules(RowsOf(f)) <==>
            || r in DirRules(i, d, Number(f.protects, i))
            || r in WhiteRules(i, Parts(d.isWhite, '|'))
            || r in IncRules(i, d, Parts(d.includeFile, '|'), Number(f.protects, i))
            || r in ExcRules(i, ExcParts(d))
  {
    hide AllRules, RowsOf, ProtectUpTo, DirRules, WhiteRules, IncRules, ExcRules, Parts, ExcParts, Number, Tpnc;
    var ds := f.protects;
    DirectoryRules(f, r);
    DirRuleRows(ds, |ds|, r);
    WhiteRows(ds, |ds|, AnyPattern(), r);
    IncRows(ds, |ds|, AnyPattern(), r);
    ExcRows(ds, |ds|, AnyPattern(), r);
    forall j | 0 <= j < |ds|
      ensures r in DirRules(j, ds[j], Number(ds, j)) ==> j == i
      ensures r in WhiteRules(j, Parts(ds[j].isWhite, '|')) ==> j == i
      ensures r in IncRules(j, ds[j], Parts(ds[j].includeFile, '|'), Number(ds, j)) ==> j == i
      ensures r in ExcRules(j, ExcParts(ds[j])) ==> j == i
    {
      DirRuleIs(j, ds[j], Number(ds, j), r);
      WhiteRowIs(j, Parts(ds[j].isWhite, '|'), AnyPattern(), r);
      IncRowIs(j, ds[j], Parts(ds[j].includeFile, '|'), Number(ds, j), AnyPattern(), r);
      ExcRowIs(j, ExcParts(ds[j]), AnyPattern(), r);
    }
  }

  lemma DirRuleIs(i: nat, d: Protect, tpnc: Option<nat>, r: Rule)
    ensures r in DirRules(i, d, tpnc) <==> d.includeFile == "" && r == Rule([ProtectDir(i)], 2, None, Some(i), Some(d.protectRw), tpnc)
  {
  }

  function AnyPattern(): Pattern {
    Pattern(SelfName(0), "", [])
  }

  lemma AppliesOne(pats: seq<Pattern>, r: Rule, name: Name, path: string)
    requires r.patterns == [name]
    ensures Applies(pats, r, path) <==> Found(pats, name, path)
  {
    hide Found;
    assert name in r.patterns;
  }

  lemma AppliesTwo(pats: seq<Pattern>, r: Rule, a: Name, b: Name, path: string)
    requires r.patterns == [a, b]
    ensures Applies(pats, r, path) <==> Found(pats, a, path) && Found(pats, b, path)
  {
    hide Found;
    assert a in r.patterns && b in r.patterns;
  }

  /** One part of a list field is the ending of the path behind a dot. */
  ghost predicate SomeSuffix(field: string, path: string) {
    field != "" && exists j :: 0 <= j < |Split(field, '|')| && EndsWith(path, "." + Split(field, '|')[j])
  }

  /** One part of a list field occurs in the path. */
  ghost predicate SomePart(field: string, path: string) {
    field != "" && exists j, k :: 0 <= j < |Split(field, '|')| && KeyAt(Split(field, '|')[j], path, k)
  }

  /** What a rule of directory i can be, by its action. */
  lemma RuleIs(f: Force, i: nat, r: Rule)
    requires i < |f.protects| && r.kind == 2 && r.ruleIdx == Some(i)
    ensures var d, number := f.protects[i], Number(f.protects, i);
            var white, inc, exc := Parts(d.isWhite, '|'), Parts(d.includeFile, '|'), ExcParts(d);
            && (r.action == None ==>
                  (r in AllRules(RowsOf(f)) <==>
                   d.includeFile == "" && r == Rule([ProtectDir(i)], 2, None, Some(i), Some(d.protectRw), number)))
            && (r.action == Some(1) ==>
                  (r in AllRules(RowsOf(f)) <==>
                   exists j :: 0 <= j < |white| && r == Rule([ExcludeDir(i, j)], 2, Some(1), Some(i), None, None)))
            && (r.action == Some(2) ==>
                  (r in AllRules(RowsOf(f)) <==>
                   exists j :: 0 <= j < |exc| && r == Rule([ProtectDir(i), ExcFileExe(i, j)], 2, Some(2), Some(i), None, None)))
            && (r.action == Some(3) ==>
                  (r in AllRules(RowsOf(f)) <==>
                   exists j :: 0 <= j < |inc| && r == Rule([ProtectDir(i), IncFileExe(i, j)], 2, Some(3), Some(i), Some(d.protectRw), number)))
            && (r in AllRules(RowsOf(f)) ==> r.action in {None, Some(1), Some(2), Some(3)})
  {
    hide AllRules, RowsOf, DirRules, WhiteRules, IncRules, ExcRules, Parts, ExcParts, Number;
    var d, number := f.protects[i], Number(f.protects, i);
    RulesFor(f, i, r);
    DirRuleIs(i, d, number, r);
    WhiteRowIs(i, Parts(d.isWhite, '|'), AnyPattern(), r);
    IncRowIs(i, d, Parts(d.includeFile, '|'), number, AnyPattern(), r);
    ExcRowIs(i, ExcParts(d), AnyPattern(), r);
  }

  lemma GuardSays(f: Force, i: nat, path: string)
    requires i < |f.protects|
    ensures Says(RowsOf(f), i, None, path) <==> f.protects[i].includeFile == "" && Under(f.protects[i], path)
  {
    hide AllRules, AllPats, RowsOf, Found, Applies, Parts, ExcParts, Number, Under;
    var d, pats := f.protects[i], AllPats(RowsOf(f));
    var mine := Rule([ProtectDir(i)], 2, None, Some(i), Some(d.protectRw), Number(f.protects, i));
    RuleIs(f, i, mine);
    AppliesOne(pats, mine, ProtectDir(i), path);
    DirFound(f, i, path);
    forall r | r in AllRules(RowsOf(f)) && r.kind == 2 && r.ruleIdx == Some(i) && r.action == None
      ensures r == mine && d.includeFile == ""
    {
      RuleIs(f, i, r);
    }
  }

  lemma IncludeSays(f: Force, i: nat, path: string)
    requires i < |f.protects|
    ensures var d := f.protects[i]; Says(RowsOf(f), i, Some(3), path) <==> Under(d, path) && SomeSuffix(d.includeFile, path)
  {
    hide AllRules, AllPats, RowsOf, Found, Applies, ExcParts, Number, Under, Split, EndsWith;
    var d, pats := f.protects[i], AllPats(RowsOf(f));
    var inc := Parts(d.includeFile, '|');
    DirFound(f, i, path);
    forall j | 0 <= j < |inc|
      ensures var r := Rule([ProtectDir(i), IncFileExe(i, j)], 2, Some(3), Some(i), Some(d.protectRw), Number(f.protects, i));
              r in AllRules(RowsOf(f)) && (Applies(pats, r, path) <==> Under(d, path) && EndsWith(path, "." + inc[j]))
    {
      var r := Rule([ProtectDir(i), IncFileExe(i, j)], 2, Some(3), Some(i), Some(d.protectRw), Number(f.protects, i));
      RuleIs(f, i, r);
      AppliesTwo(pats, r, ProtectDir(i), IncFileExe(i, j), path);
      IncFound(f, i, j, path);
    }
    forall r | r in AllRules(RowsOf(f)) && r.kind == 2 && r.ruleIdx == Some(i) && r.action == Some(3)
      ensures exists j :: 0 <= j < |inc| && r == Rule([ProtectDir(i), IncFileExe(i, j)], 2, Some(3), Some(i), Some(d.protectRw), Number(f.protects, i))
    {
      RuleIs(f, i, r);
    }
  }

  lemma ExcludeSays(f: Force, i: nat, path: string)
    requires i < |f.protects|
    ensures var d := f.protects[i];
            Says(RowsOf(f), i, Some(2), path) <==> d.includeFile == "" && Under(d, path) && SomeSuffix(d.fileExt, path)
  {
    hide AllRules, AllPats, RowsOf, Found, Applies, Number, Under, Split, EndsWith;
    var d, pats := f.protects[i], AllPats(RowsOf(f));
    var exc := ExcParts(d);
    DirFound(f, i, path);
    forall j | 0 <= j < |exc|
      ensures var r := Rule([ProtectDir(i), ExcFileExe(i, j)], 2, Some(2), Some(i), None, None);
              r in AllRules(RowsOf(f)) && (Applies(pats, r, path) <==> Under(d, path) && EndsWith(path, "." + exc[j]))
    {
      var r := Rule([ProtectDir(i), ExcFileExe(i, j)], 2, Some(2), Some(i), None, None);
      RuleIs(f, i, r);
      AppliesTwo(pats, r, ProtectDir(i), ExcFileExe(i, j), path);
      ExcFound(f, i, j, path);
    }
    forall r | r in AllRules(RowsOf(f)) && r.kind == 2 && r.ruleIdx == Some(i) && r.action == Some(2)
      ensures exists j :: 0 <= j < |exc| && r == Rule([ProtectDir(i), ExcFileExe(i, j)], 2, Some(2), Some(i), None, None)
    {
      RuleIs(f, i, r);
    }
  }

  lemma WhiteSays(f: Force, i: nat, path: string)
    requires i < |f.protects|
    ensures Says(RowsOf(f), i, Some(1), path) <==> SomePart(f.protects[i].isWhite, path)
  {
    hide AllRules, AllPats, RowsOf, Found, Applies, ExcParts, Number, Split, KeyAt;
    var d, pats := f.protects[i], AllPats(RowsOf(f));
    var white := Parts(d.isWhite, '|');
    forall j | 0 <= j < |white|
      ensures var r := Rule([ExcludeDir(i, j)], 2, Some(1), Some(i), None, None);
              r in AllRules(RowsOf(f)) && (Applies(pats, r, path) <==> exists k :: KeyAt(white[j], path, k))
    {
      var r := Rule([ExcludeDir(i, j)], 2, Some(1), Some(i), None, None);
      RuleIs(f, i, r);
      AppliesOne(pats, r, ExcludeDir(i, j), path);
      WhiteFound(f, i, j, path);
    }
    forall r | r in AllRules(RowsOf(f)) && r.kind == 2 && r.ruleIdx == Some(i) && r.action == Some(1)
      ensures exists j :: 0 <= j < |white| && r == Rule([ExcludeDir(i, j)], 2, Some(1), Some(i), None, None)
    {
      RuleIs(f, i, r);
    }
  }

  /** After any calls of the manager, for every one of the first fifty protected directories and
      every path: a directory without included suffixes guards what its pattern covers; one with
      included suffixes guards only those of them; excluded suffixes count only without included
      ones; and the listed parts are exempt wherever they occur. */
  lemma ProtectMeaning(k: Kernel, cs: seq<Call>, i: nat, path: string)
    requires i < |InForce(cs).protects|
    ensures var r, d := Run(Boot(k), cs).rows, InForce(cs).protects[i];
            && (Says(r, i, None, path) <==> d.includeFile == "" && Under(d, path))
            && (Says(r, i, Some(3), path) <==> Under(d, path) && SomeSuffix(d.includeFile, path))
            && (Says(r, i, Some(2), path) <==> d.includeFile == "" && Under(d, path) && SomeSuffix(d.fileExt, path))
            && (Says(r, i, Some(1), path) <==> SomePart(d.isWhite, path))
  {
    hide *;
    RowsOnEveryRun(k, cs);
    GuardSays(InForce(cs), i, path);
    IncludeSays(InForce(cs), i, path);
    ExcludeSays(InForce(cs), i, path);
    WhiteSays(InForce(cs), i, path);
  }

  /** The rules that guard carry the directory's read-write flag and trust exactly the processes
      that the directory names. */
  lemma ProtectTrusts(k: Kernel, cs: seq<Call>, i: nat, r: Rule)
    requires i < |InForce(cs).protects|
    requires var rows := Run(Boot(k), cs).rows; r in AllRules(rows) && r.kind == 2 && r.ruleIdx == Some(i)
    ensures var rows, d := Run(Boot(k), cs).rows, InForce(cs).protects[i];
            if r.action in {None, Some(3)} then r.protectRw == Some(d.protectRw) && Trusts(rows.protectProcs, 88, r.tpnc, Hashes(d))
            else r.action in {Some(1), Some(2)} && r.protectRw == None && r.tpnc == None
  {
    hide *;
    var f := InForce(cs);
    RowsOnEveryRun(k, cs);
    RuleIs(f, i, r);
    ProtectTrust(f.protects, |f.protects|, i);
    ProtectFamilies(f);
  }

  /** The same for the rules of export policies. */
  lemma ExportTrusts(r: Rows, es: seq<Export>, i: nat)
    requires i < |es| && i < 50
    ensures var x := Generated(r, SetExiportDir(es));
            i < |x.exiport.rules| && Trusts(x.exiportProcs, 99, x.exiport.rules[i].tpnc, es[i].hashes)
  {
    hide Trusts, NumbersBelow, ExportUpTo;
    ExportTrust(Taken(es), |Taken(es)|, i);
  }

  /** Of a download of directories the first fifty are in force, unchanged and in order. */
  lemma FirstFifty(f: Force, ds: seq<Protect>, i: nat)
    requires i < |ds| && i < 50
    ensures var g := Enforce(f, SetProtectDir(ds)).protects; |g| == (if |ds| < 50 then |ds| else 50) && g[i] == ds[i]
  {
  }

  /** The five fixed rows: three places of the agent's files anywhere in a path, its directory as
      a whole path, and what lies in it; all with rules of kind 3. */
  lemma SelfMeaning(path: string)
    ensures var f := SelfFamily();
            && |f.pats| == |f.rules| == 5
            && (Covers(f.pats[0], path) <==> exists k :: KeyAt("/var/lib/dpkg/info/osec.", path, k))
            && (Covers(f.pats[1], path) <==> path == "/opt/osec")
            && (Covers(f.pats[2], path) <==> exists k :: KeyAt("/opt/osec/", path, k))
            && (Covers(f.pats[3], path) <==> exists k :: KeyAt(UNITS + "osec.", path, k))
            && (Covers(f.pats[4], path) <==> exists k :: KeyAt(UNITS + "agent_manager.", path, k))
            && forall i :: 0 <= i < 5 ==> f.pats[i].name == SelfName(i + 1) && f.rules[i] == Rule([SelfName(i + 1)], 3, None, None, None, None)
  {
    var f := SelfFamily();
    hide Covers, KeyAt;
    CoversAnywhere(f.pats[0], path);
    CoversWhole(f.pats[1], path);
    CoversFree(f.pats[2], path);
    CoversAnywhere(f.pats[3], path);
    CoversAnywhere(f.pats[4], path);
  }

  lemma CoversFree(p: Pattern, path: string)
    requires forall a :: a in p.attrs ==> !Placed(a)
    ensures Covers(p, path) <==> exists k :: KeyAt(p.key, path, k)
  {
  }

  // ---------------------------------------------------------------- what a call leaves alone

  /** Every call changes its own rows only. Switching the self-protection on gives its five rows;
      asking for it to be off changes nothing. */
  lemma CallsSpare(r: Rows, c: Call)
    ensures var s := Generated(r, c);
            && (!c.AddFilePattern? ==> s.self == r.self)
            && (c == AddFilePattern(true) ==> s.self == SelfFamily()) && (c == AddFilePattern(false) ==> s == r)
            && (!c.SetGlobalTrustDir? ==> s.trust == r.trust)
            && (!c.SetExiportDir? && !c.ClearExiportDir? ==> s.exiport == r.exiport && s.exiportProcs == r.exiportProcs)
            && (!c.SetProtectDir? && !c.ClearProtectDir? ==>
                  s.protect == r.protect && s.white == r.white && s.inc == r.inc && s.exc == r.exc && s.protectProcs == r.protectProcs)
  {
    hide TrustUpTo, ExportUpTo, ProtectUpTo, SelfFamily;
  }

  /** Clearing the export directories removes their patterns and rules, while all the processes
      they trusted stay listed. */
  lemma ExportClearKeepsProcesses(r: Rows, es: seq<Export>, i: nat, h: string)
    requires i < |es| && i < 50 && h in es[i].hashes
    ensures var s := Generated(Generated(r, SetExiportDir(es)), ClearExiportDir);
            && s.exiport.pats == [] && s.exiport.rules == []
            && exists q :: q in s.exiportProcs && q.hash == h && q.tag == 99
  {
    hide ExportUpTo;
    ExportTrusts(r, es, i);
    var x := Generated(r, SetExiportDir(es));
    assert ProcRow(h, x.exiport.rules[i].tpnc.value, 99) in x.exiportProcs;
  }

  /** Clearing the protected directories removes everything they brought. */
  lemma ProtectClearEmpties(r: Rows)
    ensures var s := Generated(r, ClearProtectDir);
            && s.protect.pats == s.white.pats == s.inc.pats == s.exc.pats == []
            && s.protect.rules == s.white.rules == s.inc.rules == s.exc.rules == []
            && s.protectProcs == []
  {
  }
}
