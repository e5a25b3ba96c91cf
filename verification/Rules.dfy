/** Rules, rule-set validation, and the stable sort by priority every consumer starts from. */
module Rules {
  import opened Text

  datatype Kind =
    | Domain | DomainSuffix | DomainKeyword
    | GeoSite | GeoIP | IpCidr | RuleSetRef
    | Match
    | Unknown(name: string)

  datatype Rule = Rule(
    id: string, kind: Kind, pattern: string, action: string, priority: int, enabled: bool)

  // ---------- filtering ----------

  function Filter(rs: seq<Rule>, keep: Rule -> bool): (out: seq<Rule>)
    ensures forall r :: r in out <==> r in rs && keep(r)
  {
    if rs == [] then []
    else (if keep(rs[0]) then [rs[0]] else []) + Filter(rs[1..], keep)
  }

  function Enabled(rs: seq<Rule>): seq<Rule> {
    Filter(rs, (r: Rule) => r.enabled)
  }

  function AtPriority(rs: seq<Rule>, p: int): seq<Rule> {
    Filter(rs, (r: Rule) => r.priority == p)
  }

  lemma {:induction false} FilterAppend(a: seq<Rule>, b: seq<Rule>, keep: Rule -> bool)
    ensures Filter(a + b, keep) == Filter(a, keep) + Filter(b, keep)
  {
    if a == [] {
      assert a + b == b;
    } else {
      assert (a + b)[1..] == a[1..] + b;
      FilterAppend(a[1..], b, keep);
    }
  }

  lemma {:induction false} FilterTwice(rs: seq<Rule>, f: Rule -> bool, g: Rule -> bool, both: Rule -> bool)
    requires forall r :: both(r) <==> f(r) && g(r)
    ensures Filter(Filter(rs, f), g) == Filter(rs, both)
  {
    if rs != [] {
      FilterTwice(rs[1..], f, g, both);
      FilterAppend(if f(rs[0]) then [rs[0]] else [], Filter(rs[1..], f), g);
      assert Filter([rs[0]], g) == if g(rs[0]) then [rs[0]] else [] by {
        assert [rs[0]][1..] == [];
      }
    }
  }

  lemma {:induction false} FilterNone(rs: seq<Rule>, keep: Rule -> bool)
    requires forall r :: r in rs ==> !keep(r)
    ensures Filter(rs, keep) == []
  {
    if rs != [] {
      FilterNone(rs[1..], keep);
    }
  }

  lemma {:induction false} FilterAll(rs: seq<Rule>, keep: Rule -> bool)
    requires forall r :: r in rs ==> keep(r)
    ensures Filter(rs, keep) == rs
  {
    if rs != [] {
      FilterAll(rs[1..], keep);
    }
  }

  lemma {:induction false} FilterSorted(rs: seq<Rule>, keep: Rule -> bool)
    requires Sorted(rs)
    ensures Sorted(Filter(rs, keep))
  {
    if rs != [] {
      var rest := rs[1..];
      assert forall r :: r in rest ==> rs[0].priority <= r.priority;
      FilterSorted(rest, keep);
    }
  }

  // ---------- sort.SliceStable by priority ----------

  predicate Sorted(rs: seq<Rule>) {
    forall i, j :: 0 <= i < j < |rs| ==> rs[i].priority <= rs[j].priority
  }

  // Inserts r behind every rule of the same or a smaller priority.
  function InsertByPriority(r: Rule, rs: seq<Rule>): seq<Rule> {
    if rs == [] || r.priority < rs[0].priority then [r] + rs
    else [rs[0]] + InsertByPriority(r, rs[1..])
  }

  function StableSort(rs: seq<Rule>): seq<Rule> {
    if rs == [] then []
    else InsertByPriority(rs[|rs| - 1], StableSort(rs[..|rs| - 1]))
  }

  lemma FilterCons(r: Rule, rs: seq<Rule>, keep: Rule -> bool)
    ensures Filter([r] + rs, keep) == (if keep(r) then [r] else []) + Filter(rs, keep)
  {
    assert ([r] + rs)[1..] == rs;
  }

  lemma {:induction false} InsertKeepsOrder(r: Rule, rs: seq<Rule>)
    requires Sorted(rs)
    ensures Sorted(InsertByPriority(r, rs))
    ensures forall q :: q in InsertByPriority(r, rs) <==> q == r || q in rs
  {
    if rs != [] && r.priority >= rs[0].priority {
      InsertKeepsOrder(r, rs[1..]);
      assert rs == [rs[0]] + rs[1..];
      var rest := InsertByPriority(r, rs[1..]);
      assert forall q :: q in rs[1..] ==> rs[0].priority <= q.priority;
      assert forall j :: 0 <= j < |rest| ==> rest[j] in rest && rs[0].priority <= rest[j].priority;
    }
  }

  lemma InFrontAtPriority(r: Rule, rs: seq<Rule>, p: int)
    requires Sorted(rs) && (rs != [] ==> r.priority < rs[0].priority)
    ensures AtPriority([r] + rs, p) == AtPriority(rs, p) + (if r.priority == p then [r] else [])
  {
    FilterCons(r, rs, (q: Rule) => q.priority == p);
    if r.priority == p {
      FilterNone(rs, (q: Rule) => q.priority == p);
    }
  }

  lemma {:induction false} InsertAtPriority(r: Rule, rs: seq<Rule>, p: int)
    requires Sorted(rs)
    ensures AtPriority(InsertByPriority(r, rs), p) == AtPriority(rs, p) + (if r.priority == p then [r] else [])
  {
    if rs == [] || r.priority < rs[0].priority {
      InFrontAtPriority(r, rs, p);
    } else {
      var at := (q: Rule) => q.priority == p;
      InsertAtPriority(r, rs[1..], p);
      assert rs == [rs[0]] + rs[1..];
      FilterCons(rs[0], rs[1..], at);
      FilterCons(rs[0], InsertByPriority(r, rs[1..]), at);
    }
  }

  // The library's promise for a stable sort: ordered, and equal priorities keep their input order.
  lemma {:induction false} StableSortIsStable(rs: seq<Rule>)
    ensures Sorted(StableSort(rs))
    ensures forall r :: r in StableSort(rs) <==> r in rs
    ensures forall p :: AtPriority(StableSort(rs), p) == AtPriority(rs, p)
  {
    if rs != [] {
      var init, last := rs[..|rs| - 1], rs[|rs| - 1];
      StableSortIsStable(init);
      InsertKeepsOrder(last, StableSort(init));
      assert rs == init + [last];
      forall p ensures AtPriority(StableSort(rs), p) == AtPriority(rs, p) {
        InsertAtPriority(last, StableSort(init), p);
        FilterAppend(init, [last], (q: Rule) => q.priority == p);
        FilterCons(last, [], (q: Rule) => q.priority == p);
        assert [last] + [] == [last];
      }
    }
  }

  lemma AtOwnPriority(rs: seq<Rule>)
    ensures rs != [] ==> AtPriority(rs, rs[0].priority) != [] && AtPriority(rs, rs[0].priority)[0] == rs[0]
  {
  }

  // ... and that promise determines the result.
  lemma {:induction false} StableOrderIsUnique(a: seq<Rule>, b: seq<Rule>)
    requires Sorted(a) && Sorted(b)
    requires forall p :: AtPriority(a, p) == AtPriority(b, p)
    ensures a == b
  {
    AtOwnPriority(a);
    AtOwnPriority(b);
    if a != [] {
      var p, q := a[0].priority, b[0].priority;
      assert a[0] in AtPriority(b, p) && b[0] in AtPriority(a, q);
      assert p == q && a[0] == b[0];
      forall k ensures AtPriority(a[1..], k) == AtPriority(b[1..], k) {
        var keep := (r: Rule) => r.priority == k;
        assert a == [a[0]] + a[1..] && b == [b[0]] + b[1..];
        assert AtPriority(a, k) == AtPriority(b, k);
        FilterCons(a[0], a[1..], keep);
        FilterCons(b[0], b[1..], keep);
        var h := if keep(a[0]) then 1 else 0;
        assert AtPriority(a, k)[h..] == AtPriority(a[1..], k);
        assert AtPriority(b, k)[h..] == AtPriority(b[1..], k);
      }
      StableOrderIsUnique(a[1..], b[1..]);
    }
  }

  // Dropping rules before or after the sort is the same.
  lemma FilterCommutesWithSort(rs: seq<Rule>, keep: Rule -> bool)
    ensures Filter(StableSort(rs), keep) == StableSort(Filter(rs, keep))
  {
    StableSortIsStable(rs);
    StableSortIsStable(Filter(rs, keep));
    FilterSorted(StableSort(rs), keep);
    forall p ensures AtPriority(Filter(StableSort(rs), keep), p) == AtPriority(StableSort(Filter(rs, keep)), p) {
      var at := (r: Rule) => r.priority == p;
      var both := (r: Rule) => keep(r) && r.priority == p;
      FilterTwice(StableSort(rs), keep, at, both);
      FilterTwice(StableSort(rs), at, keep, both);
      FilterTwice(rs, at, keep, both);
      FilterTwice(rs, keep, at, both);
      assert AtPriority(StableSort(rs), p) == AtPriority(rs, p);
    }
    StableOrderIsUnique(Filter(StableSort(rs), keep), StableSort(Filter(rs, keep)));
  }

  // ---------- validation ----------

  predicate HasDelimiter(s: string) {
    exists i :: 0 <= i < |s| && s[i] in {',', '\r', '\n'}
  }

  /** Rule.Validate; the two library checks on patterns are parameters. */
  predicate ValidRule(r: Rule, isDomainName: string -> bool, isCidr: string -> bool) {
    && TrimSpace(r.id) != ""
    && !r.kind.Unknown?
    && (!r.kind.Match? ==> TrimSpace(r.pattern) != "")
    && TrimSpace(r.action) != ""
    && !HasDelimiter(r.action)
    && !HasDelimiter(r.pattern)
    && (r.kind.Domain? || r.kind.DomainSuffix? ==> isDomainName(TrimSpace(r.pattern)))
    && (r.kind.IpCidr? ==> isCidr(TrimSpace(r.pattern)))
    && (r.kind.Match? ==> TrimSpace(r.pattern) == "")
  }

  predicate UniqueIds(rs: seq<Rule>) {
    forall i, j :: 0 <= i < j < |rs| ==> rs[i].id != rs[j].id
  }

  predicate NoMatchExcept(rs: seq<Rule>, m: int) {
    forall i :: 0 <= i < |rs| && i != m ==> !rs[i].kind.Match?
  }

  predicate BehindAll(rs: seq<Rule>, m: nat)
    requires m < |rs|
  {
    forall i :: 0 <= i < |rs| && i != m ==>
      rs[i].priority < rs[m].priority || (rs[i].priority == rs[m].priority && i < m)
  }

  /** At most one MATCH rule, and a stable sort puts it last. */
  predicate MatchIsLast(rs: seq<Rule>) {
    var sorted := StableSort(rs);
    forall i :: 0 <= i < |sorted| - 1 ==> !sorted[i].kind.Match?
  }

  predicate ValidSet(rs: seq<Rule>, isDomainName: string -> bool, isCidr: string -> bool) {
    && (forall r :: r in rs ==> ValidRule(r, isDomainName, isCidr))
    && UniqueIds(rs)
    && MatchIsLast(rs)
  }

  lemma {:induction false} InsertAtEnd(r: Rule, rs: seq<Rule>)
    requires forall q :: q in rs ==> q.priority <= r.priority
    ensures InsertByPriority(r, rs) == rs + [r]
  {
    if rs != [] {
      InsertAtEnd(r, rs[1..]);
    }
  }

  lemma {:induction false} InsertBeforeLast(r: Rule, rs: seq<Rule>, last: Rule)
    requires r.priority < last.priority
    ensures InsertByPriority(r, rs + [last]) == InsertByPriority(r, rs) + [last]
  {
    if rs == [] {
      assert rs + [last] == [last];
    } else if r.priority < rs[0].priority {
      assert [r] + (rs + [last]) == [r] + rs + [last];
    } else {
      assert (rs + [last])[1..] == rs[1..] + [last];
      InsertBeforeLast(r, rs[1..], last);
    }
  }

  // The rule that beats nobody on (priority, position) is the one the sort puts last.
  lemma {:induction false} SortPutsLast(rs: seq<Rule>, m: nat)
    requires m < |rs| && BehindAll(rs, m)
    ensures StableSort(rs) == StableSort(rs[..m] + rs[m + 1..]) + [rs[m]]
    decreases |rs|
  {
    var n := |rs| - 1;
    var init := rs[..n];
    if m == n {
      StableSortIsStable(init);
      InsertAtEnd(rs[m], StableSort(init));
      assert rs[..m] + rs[m + 1..] == init;
    } else {
      SortPutsLast(init, m);
      var without := rs[..m] + rs[m + 1..];
      assert without[..|without| - 1] == init[..m] + init[m + 1..];
      assert without[|without| - 1] == rs[n];
      InsertBeforeLast(rs[n], StableSort(init[..m] + init[m + 1..]), rs[m]);
    }
  }

  // Two MATCH rules: the earlier one in the sorted order is not last.
  lemma {:induction false} TwoMatches(rs: seq<Rule>, i: nat, j: nat)
    requires i < j < |rs| && rs[i].kind.Match? && rs[j].kind.Match?
    ensures |Filter(rs, (r: Rule) => r.kind.Match?)| >= 2
  {
    var keep := (r: Rule) => r.kind.Match?;
    assert rs == rs[..j] + rs[j..];
    FilterAppend(rs[..j], rs[j..], keep);
    assert rs[..j][i] in Filter(rs[..j], keep);
    assert rs[j..][0] in Filter(rs[j..], keep);
  }

  lemma {:induction false} LastOnlyFilter(rs: seq<Rule>, keep: Rule -> bool)
    requires forall i :: 0 <= i < |rs| - 1 ==> !keep(rs[i])
    ensures |Filter(rs, keep)| <= 1
  {
    if rs != [] {
      var n := |rs| - 1;
      assert rs == rs[..n] + [rs[n]];
      FilterAppend(rs[..n], [rs[n]], keep);
      FilterNone(rs[..n], keep);
      assert [rs[n]][1..] == [];
    }
  }

  lemma FilterSortLength(rs: seq<Rule>, keep: Rule -> bool)
    ensures |Filter(StableSort(rs), keep)| == |Filter(rs, keep)|
  {
    FilterCommutesWithSort(rs, keep);
    SortLength(Filter(rs, keep));
  }

  lemma {:induction false} SortLength(rs: seq<Rule>)
    ensures |StableSort(rs)| == |rs|
  {
    if rs != [] {
      SortLength(rs[..|rs| - 1]);
      InsertLength(rs[|rs| - 1], StableSort(rs[..|rs| - 1]));
    }
  }

  lemma {:induction false} InsertLength(r: Rule, rs: seq<Rule>)
    ensures |InsertByPriority(r, rs)| == |rs| + 1
  {
    if rs != [] && r.priority >= rs[0].priority {
      InsertLength(r, rs[1..]);
    }
  }

  lemma {:induction false} MaxPosition(rs: seq<Rule>) returns (m: nat)
    requires rs != []
    ensures m < |rs| && BehindAll(rs, m)
  {
    var n := |rs| - 1;
    if n == 0 {
      m := 0;
    } else {
      var k := MaxPosition(rs[..n]);
      m := if rs[n].priority >= rs[k].priority then n else k;
    }
  }

  // The pairwise test of RuleSet.Validate is exactly "last after sorting".
  lemma MatchLastCriterion(rs: seq<Rule>, m: nat)
    requires m < |rs| && rs[m].kind.Match? && NoMatchExcept(rs, m)
    ensures MatchIsLast(rs) <==> BehindAll(rs, m)
  {
    var isMatch := (r: Rule) => r.kind.Match?;
    SortLength(rs);
    if BehindAll(rs, m) {
      SortPutsLast(rs, m);
      var others := rs[..m] + rs[m + 1..];
      StableSortIsStable(others);
      var sorted := StableSort(rs);
      forall i | 0 <= i < |sorted| - 1 ensures !sorted[i].kind.Match? {
        assert sorted[i] in StableSort(others);
        assert sorted[i] in others;
      }
    } else {
      var k := MaxPosition(rs);
      SortPutsLast(rs, k);
      var sorted := StableSort(rs);
      assert sorted[|sorted| - 1] == rs[k] && !rs[k].kind.Match?;
      StableSortIsStable(rs);
      assert rs[m] in sorted;
      var i :| 0 <= i < |sorted| && sorted[i] == rs[m];
      assert i < |sorted| - 1;
    }
  }

  lemma NoMatchSortsFine(rs: seq<Rule>)
    requires forall r :: r in rs ==> !r.kind.Match?
    ensures MatchIsLast(rs)
  {
    StableSortIsStable(rs);
  }

  lemma TwoMatchesInvalid(rs: seq<Rule>, i: nat, j: nat)
    requires i < j < |rs| && rs[i].kind.Match? && rs[j].kind.Match?
    ensures !MatchIsLast(rs)
  {
    var keep := (r: Rule) => r.kind.Match?;
    TwoMatches(rs, i, j);
    FilterSortLength(rs, keep);
    if MatchIsLast(rs) {
      LastOnlyFilter(StableSort(rs), keep);
    }
  }

  /** The placement loop of RuleSet.Validate. */
  method MatchPlacedLast(rs: seq<Rule>, m: nat) returns (ok: bool)
    requires m < |rs|
    ensures ok <==> BehindAll(rs, m)
  {
    for i := 0 to |rs|
      invariant forall k :: 0 <= k < i && k != m ==>
        rs[k].priority < rs[m].priority || (rs[k].priority == rs[m].priority && k < m)
    {
      if i != m {
        if rs[i].priority > rs[m].priority || (rs[i].priority == rs[m].priority && i > m) {
          return false;
        }
      }
    }
    return true;
  }

  // An acceptable rule as it stands on the page.
  ghost predicate ReadsWell(r: Rule, isDomainName: string -> bool, isCidr: string -> bool) {
    && !AllBlank(r.id) && !AllBlank(r.action) && OneField(r.action) && OneField(r.pattern)
    && match r.kind {
         case Match => AllBlank(r.pattern)
         case Domain => NamesWell(r.pattern, isDomainName)
         case DomainSuffix => NamesWell(r.pattern, isDomainName)
         case IpCidr => NamesWell(r.pattern, isCidr)
         case Unknown(_) => false
         case _ => !AllBlank(r.pattern)
       }
  }

  // No comma and no line break.
  predicate OneField(s: string) {
    forall i :: 0 <= i < |s| ==> s[i] != ',' && s[i] != '\r' && s[i] != '\n'
  }

  // What stands between the outer blanks is there, and is what it should be.
  ghost predicate NamesWell(s: string, accepts: string -> bool) {
    exists lo: nat, hi: nat :: TrimsTo(s, lo, hi) && lo < hi && accepts(s[lo..hi])
  }

  // Acceptable rules with ids of their own, and the MATCH rule, if there is one, behind all others.
  ghost predicate SetReadsWell(rs: seq<Rule>, isDomainName: string -> bool, isCidr: string -> bool) {
    && (forall i :: 0 <= i < |rs| ==> ReadsWell(rs[i], isDomainName, isCidr))
    && (forall i, j :: 0 <= i < j < |rs| ==> rs[i].id != rs[j].id)
    && (forall i, m :: 0 <= i < |rs| && 0 <= m < |rs| && i != m && rs[m].kind.Match? ==>
          !rs[i].kind.Match?
          && (rs[i].priority < rs[m].priority || (rs[i].priority == rs[m].priority && i < m)))
  }

  lemma NamesWellExactly(s: string, accepts: string -> bool)
    ensures NamesWell(s, accepts) <==> TrimSpace(s) != "" && accepts(TrimSpace(s))
  {
    hide TrimSpace;
    var lo, hi := TrimEnds(s);
    if NamesWell(s, accepts) {
      var a: nat, b: nat :| TrimsTo(s, a, b) && a < b && accepts(s[a..b]);
      TrimsOnce(s, a, b);
    }
  }

  lemma ReadsWellExactly(r: Rule, isDomainName: string -> bool, isCidr: string -> bool)
    ensures ValidRule(r, isDomainName, isCidr) <==> ReadsWell(r, isDomainName, isCidr)
  {
    hide TrimSpace, AllBlank, NamesWell;
    BlankExactly(r.id);
    BlankExactly(r.action);
    BlankExactly(r.pattern);
    NamesWellExactly(r.pattern, isDomainName);
    NamesWellExactly(r.pattern, isCidr);
  }

  lemma MatchPlacedExactly(rs: seq<Rule>)
    ensures MatchIsLast(rs) <==>
            forall i, m :: 0 <= i < |rs| && 0 <= m < |rs| && i != m && rs[m].kind.Match? ==>
                             !rs[i].kind.Match?
                             && (rs[i].priority < rs[m].priority || (rs[i].priority == rs[m].priority && i < m))
  {
    hide MatchIsLast;
    if m :| 0 <= m < |rs| && rs[m].kind.Match? {
      if i :| 0 <= i < |rs| && i != m && rs[i].kind.Match? {
        TwoMatchesInvalid(rs, if i < m then i else m, if i < m then m else i);
      } else {
        MatchLastCriterion(rs, m);
      }
    } else {
      NoMatchSortsFine(rs);
    }
  }

  lemma ValidSetExactly(rs: seq<Rule>, isDomainName: string -> bool, isCidr: string -> bool)
    ensures ValidSet(rs, isDomainName, isCidr) <==> SetReadsWell(rs, isDomainName, isCidr)
  {
    hide MatchIsLast, ValidRule, ReadsWell;
    MatchPlacedExactly(rs);
    forall r ensures ValidRule(r, isDomainName, isCidr) <==> ReadsWell(r, isDomainName, isCidr) {
      ReadsWellExactly(r, isDomainName, isCidr);
    }
    assert forall i :: 0 <= i < |rs| ==> rs[i] in rs;
  }

  /** RuleSet.Validate: one pass with a seen-set and a MATCH counter, then the placement test. */
  method Validate(rs: seq<Rule>, isDomainName: string -> bool, isCidr: string -> bool) returns (ok: bool)
    ensures ok <==> ValidSet(rs, isDomainName, isCidr)
    ensures ok <==> SetReadsWell(rs, isDomainName, isCidr)
  {
    ValidSetExactly(rs, isDomainName, isCidr);
    hide ValidRule, MatchIsLast, BehindAll, SetReadsWell;
    var seen: set<string> := {};
    var matchCount := 0;
    var matchIndex := -1;
    for i := 0 to |rs|
      invariant forall k :: 0 <= k < i ==> ValidRule(rs[k], isDomainName, isCidr)
      invariant forall id :: id in seen <==> exists k :: 0 <= k < i && rs[k].id == id
      invariant forall k, l :: 0 <= k < l < i ==> rs[k].id != rs[l].id
      invariant -1 <= matchIndex < i
      invariant matchCount >= 0 && (matchIndex == -1 <==> matchCount == 0)
      invariant matchIndex >= 0 ==> rs[matchIndex].kind.Match?
      invariant matchCount <= 1 ==> forall k :: 0 <= k < i && k != matchIndex ==> !rs[k].kind.Match?
      invariant matchCount > 1 ==> exists k, l :: 0 <= k < l < i && rs[k].kind.Match? && rs[l].kind.Match?
    {
      if !ValidRule(rs[i], isDomainName, isCidr) {
        assert rs[i] in rs;
        return false;
      }
      if rs[i].id in seen {
        return false;
      }
      seen := seen + {rs[i].id};
      if rs[i].kind.Match? {
        assert matchCount >= 1 ==> rs[matchIndex].kind.Match? && rs[i].kind.Match?;
        matchCount := matchCount + 1;
        matchIndex := i;
      }
    }
    if matchCount > 1 {
      ghost var k, l :| 0 <= k < l < |rs| && rs[k].kind.Match? && rs[l].kind.Match?;
      TwoMatchesInvalid(rs, k, l);
      return false;
    }
    if matchIndex >= 0 {
      MatchLastCriterion(rs, matchIndex);
      ok := MatchPlacedLast(rs, matchIndex);
    } else {
      NoMatchSortsFine(rs);
      ok := true;
    }
  }
}
