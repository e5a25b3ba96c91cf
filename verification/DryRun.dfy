/** The static dry run of a rule set, and why its verdicts are the resolver's. */
module DryRun {
  import opened Text
  import opened Rules
  import opened RuleTable

  datatype Fixture = Fixture(domain: string, ip: string, expectedExit: string, notes: string)

  datatype Result = Result(
    domain: string, matchedRule: string, matchedKind: Option<Kind>,
    actualExit: string, expectedExit: string, pass: bool, failureReason: string)

  function Folded(s: string): string {
    Lower(TrimSpace(s))
  }

  /** ruleMatchesFixture; contains(pattern, ip) is the CIDR library's answer, false when either does not parse. */
  predicate MatchesFixture(r: Rule, f: Fixture, contains: (string, string) -> bool) {
    match r.kind
    case Domain => Folded(f.domain) == Folded(r.pattern)
    case DomainSuffix =>
      Folded(f.domain) == Folded(r.pattern) || HasSuffix(Folded(f.domain), "." + Folded(r.pattern))
    case DomainKeyword => Contains(Lower(f.domain), Lower(r.pattern))
    case IpCidr => f.ip != "" && contains(r.pattern, f.ip)
    case GeoSite | GeoIP | RuleSetRef => Contains(f.notes, "hint:" + r.pattern)
    case Match => true
    case Unknown(_) => false
  }

  predicate FirstHit(rs: seq<Rule>, f: Fixture, contains: (string, string) -> bool, hit: Option<nat>) {
    match hit
    case None => forall i :: 0 <= i < |rs| ==> !MatchesFixture(rs[i], f, contains)
    case Some(k) =>
      k < |rs| && MatchesFixture(rs[k], f, contains)
      && forall i :: 0 <= i < k ==> !MatchesFixture(rs[i], f, contains)
  }

  lemma OneFirstHit(rs: seq<Rule>, f: Fixture, contains: (string, string) -> bool, hit: Option<nat>, k: nat)
    requires FirstHit(rs, f, contains, hit) && FirstHit(rs, f, contains, Some(k))
    ensures hit == Some(k)
  {
    hide MatchesFixture;
  }

  method FindMatch(rs: seq<Rule>, f: Fixture, contains: (string, string) -> bool) returns (hit: Option<nat>)
    ensures FirstHit(rs, f, contains, hit)
  {
    for i := 0 to |rs|
      invariant forall k :: 0 <= k < i ==> !MatchesFixture(rs[k], f, contains)
    {
      if MatchesFixture(rs[i], f, contains) {
        return Some(i);
      }
    }
    return None;
  }

  // The exit a fixture ends up at: the first hit's action, else the fallthrough target.
  ghost predicate Reports(sorted: seq<Rule>, f: Fixture, contains: (string, string) -> bool,
                    fallthrough: string, res: Result) {
    && res.domain == f.domain && res.expectedExit == f.expectedExit
    && (forall k: nat :: FirstHit(sorted, f, contains, Some(k)) ==>
          res.matchedRule == sorted[k].id && res.matchedKind == Some(sorted[k].kind)
          && res.actualExit == sorted[k].action
          && (res.pass <==> f.expectedExit == "" || f.expectedExit == sorted[k].action))
    && (FirstHit(sorted, f, contains, None) ==>
          res.actualExit == fallthrough && res.matchedRule == (if fallthrough == "" then "" else "fallthrough")
          && (res.pass <==> fallthrough != "" && (f.expectedExit == "" || f.expectedExit == fallthrough)))
    && (res.pass <==> res.failureReason == "")
  }

  /** DryRun: every fixture is judged by the first rule it hits in the resolver's own scan order. */
  method Run(rs: seq<Rule>, fixtures: seq<Fixture>, fallthrough: string, contains: (string, string) -> bool)
      returns (out: seq<Result>)
    ensures |out| == |fixtures|
    ensures forall i :: 0 <= i < |out| ==> Reports(ScanOrder(rs), fixtures[i], contains, fallthrough, out[i])
  {
    hide MatchesFixture, StableSort;
    var enabled := DropDisabled(rs);
    var sorted := StableSort(enabled);
    out := [];
    for i := 0 to |fixtures|
      invariant |out| == i
      invariant forall k :: 0 <= k < i ==> Reports(sorted, fixtures[k], contains, fallthrough, out[k])
    {
      var f := fixtures[i];
      var res := Result(f.domain, "", None, "", f.expectedExit, false, "no rule matched");
      var hit := FindMatch(sorted, f, contains);
      match hit {
        case None =>
          if fallthrough != "" {
            var pass := f.expectedExit == "" || f.expectedExit == fallthrough;
            res := res.(matchedRule := "fallthrough", matchedKind := Some(Kind.Match), actualExit := fallthrough,
                        pass := pass, failureReason := if pass then "" else "actual exit differs from expected");
          }
        case Some(k) =>
          var pass := f.expectedExit == "" || sorted[k].action == f.expectedExit;
          res := res.(matchedRule := sorted[k].id, matchedKind := Some(sorted[k].kind),
                      actualExit := sorted[k].action, pass := pass,
                      failureReason := if pass then "" else "actual exit differs from expected");
      }
      forall j: nat | FirstHit(sorted, f, contains, Some(j)) ensures hit == Some(j) {
        OneFirstHit(sorted, f, contains, hit, j);
      }
      assert FirstHit(sorted, f, contains, None) ==> hit.None?;
      assert Reports(sorted, f, contains, fallthrough, res);
      out := out + [res];
    }
  }

  // ---------- agreement with the resolver ----------

  // The one step NormalizeName takes behind folding.
  function Undotted(t: string): string {
    if HasSuffix(t, ".") then t[..|t| - 1] else t
  }

  // One domain suffix test, on strings already folded.
  predicate Under(d: string, p: string) {
    d == p || HasSuffix(d, "." + p)
  }

  // Where the resolver's name stands in the lowered domain: without outer space and one final dot.
  function NameStart(domain: string): nat {
    TrimLeftIsSuffix(domain);
    |domain| - |TrimLeft(domain)|
  }

  function NameEnd(domain: string): nat {
    NameStart(domain) + |NormalizeName(domain)|
  }

  /** When the dry run and the resolver see one rule alike: equal final dots, or no match once they are gone; no blank
      suffix that the dry run honours; a keyword that, if it occurs at all, occurs inside the resolver's name; no
      address range or hint that the dry run honours. */
  ghost predicate SeenAlike(r: Rule, f: Fixture, contains: (string, string) -> bool) {
    var d, p := Folded(f.domain), Folded(r.pattern);
    match r.kind
    case Domain => HasSuffix(d, ".") == HasSuffix(p, ".") || Undotted(d) != Undotted(p)
    case DomainSuffix =>
      if Undotted(p) == "" then !Under(d, p)
      else HasSuffix(d, ".") == HasSuffix(p, ".") || !Under(Undotted(d), Undotted(p))
    case DomainKeyword =>
      (exists i :: OccursAt(Lower(f.domain), Lower(r.pattern), i)) ==>
        exists i :: NameStart(f.domain) <= i <= NameEnd(f.domain) - |r.pattern|
                    && OccursAt(Lower(f.domain), Lower(r.pattern), i)
    case IpCidr => f.ip == "" || !contains(r.pattern, f.ip)
    case GeoSite | GeoIP | RuleSetRef => !Contains(f.notes, "hint:" + r.pattern)
    case Match => false
    case Unknown(_) => true
  }

  lemma SuffixAlike(d: string, p: string)
    requires Undotted(p) != ""
    ensures (Under(d, p) <==> Under(Undotted(d), Undotted(p)))
            <==> HasSuffix(d, ".") == HasSuffix(p, ".") || !Under(Undotted(d), Undotted(p))
  {
    if HasSuffix(d, ".") && HasSuffix(p, ".") {
      BothDotted(d, p);
    } else if HasSuffix(d, ".") != HasSuffix(p, ".") {
      OneDotted(d, p);
    }
  }

  lemma LastIsDot(s: string)
    ensures HasSuffix(s, ".") <==> s != "" && s[|s| - 1] == '.'
  {
    if s != "" {
      assert s[|s| - 1..] == [s[|s| - 1]];
    }
  }

  lemma BothDotted(d: string, p: string)
    requires HasSuffix(d, ".") && HasSuffix(p, ".")
    ensures Under(d, p) <==> Under(Undotted(d), Undotted(p))
  {
    LastIsDot(d);
    LastIsDot(p);
    var d', p' := Undotted(d), Undotted(p);
    assert d == d' + "." && p == p' + ".";
    assert "." + p == "." + p' + ".";
    SuffixSnoc(d', "." + p', '.');
  }

  lemma SuffixSnoc(s: string, suffix: string, c: char)
    ensures HasSuffix(s + [c], suffix + [c]) <==> HasSuffix(s, suffix)
  {
    if |suffix| <= |s| {
      assert (s + [c])[|s| - |suffix|..] == s[|s| - |suffix|..] + [c];
      assert HasSuffix(s + [c], suffix + [c]) ==> (s[|s| - |suffix|..] + [c])[..|suffix|] == suffix;
    }
  }

  lemma OneDotted(d: string, p: string)
    requires HasSuffix(d, ".") != HasSuffix(p, ".") && Undotted(p) != ""
    ensures !Under(d, p)
  {
    LastIsDot(d);
    LastIsDot(p);
    LastIsDot("." + p);
    if HasSuffix(d, "." + p) {
      SameLast(d, "." + p);
    }
  }

  lemma SameLast(s: string, suffix: string)
    requires HasSuffix(s, suffix) && suffix != ""
    ensures s[|s| - 1] == suffix[|suffix| - 1]
  {
    assert s[|s| - |suffix|..][|suffix| - 1] == s[|s| - 1];
  }

  lemma NameWindow(domain: string)
    ensures NameStart(domain) <= NameEnd(domain) <= |domain|
    ensures NormalizeName(domain) == Lower(domain)[NameStart(domain)..NameEnd(domain)]
  {
    TrimLeftIsSuffix(domain);
    TrimRightIsPrefix(TrimLeft(domain));
    var lo, trimmed, name := NameStart(domain), TrimSpace(domain), NormalizeName(domain);
    hide TrimLeft, TrimRight, Lower;
    assert trimmed == domain[lo..][..|trimmed|] == domain[lo..lo + |trimmed|];
    LowerSlice(domain, lo, lo + |trimmed|);
    assert name == Lower(trimmed)[..|name|];
    SliceTwice(Lower(domain), lo, lo + |trimmed|, 0, |name|);
  }

  lemma OccursInWindow(s: string, sub: string, lo: nat, hi: nat)
    requires lo <= hi <= |s|
    ensures Contains(s[lo..hi], sub) <==> exists i :: lo <= i <= hi - |sub| && OccursAt(s, sub, i)
  {
    if Contains(s[lo..hi], sub) {
      var j :| 0 <= j <= |s[lo..hi]| && OccursAt(s[lo..hi], sub, j);
      SliceTwice(s, lo, hi, j, j + |sub|);
      assert OccursAt(s, sub, lo + j);
    }
    if i: nat :| lo <= i <= hi - |sub| && OccursAt(s, sub, i) {
      SliceTwice(s, lo, hi, i - lo, i - lo + |sub|);
      assert OccursAt(s[lo..hi], sub, i - lo);
    }
  }

  /** The dry run and the resolver agree on a rule exactly under SeenAlike. */
  lemma RuleAgreesExactly(r: Rule, f: Fixture, contains: (string, string) -> bool)
    requires !r.kind.Match?
    ensures (MatchesFixture(r, f, contains) <==> Matches(r, NormalizeName(f.domain))) <==> SeenAlike(r, f, contains)
  {
    var d, p := Folded(f.domain), Folded(r.pattern);
    hide Folded, TrimSpace, Lower, Contains, OccursAt;
    match r.kind {
      case Domain => DomainAlike(r, f, contains);
      case DomainSuffix => SuffixRuleAlike(r, f, contains);
      case DomainKeyword => KeywordAlike(r, f, contains);
      case _ =>
    }
  }

  lemma NormalizeIsUndotted(s: string)
    ensures NormalizeName(s) == Undotted(Folded(s))
  {
    hide TrimSpace, Lower;
  }

  lemma DomainAlike(r: Rule, f: Fixture, contains: (string, string) -> bool)
    requires r.kind.Domain?
    ensures (MatchesFixture(r, f, contains) <==> Matches(r, NormalizeName(f.domain))) <==> SeenAlike(r, f, contains)
  {
    var d, p := Folded(f.domain), Folded(r.pattern);
    NormalizeIsUndotted(f.domain);
    NormalizeIsUndotted(r.pattern);
    hide NormalizeName, Folded;
    LastIsDot(d);
    LastIsDot(p);
    assert HasSuffix(d, ".") ==> d == Undotted(d) + ".";
    assert HasSuffix(p, ".") ==> p == Undotted(p) + ".";
  }

  lemma SuffixRuleAlike(r: Rule, f: Fixture, contains: (string, string) -> bool)
    requires r.kind.DomainSuffix?
    ensures (MatchesFixture(r, f, contains) <==> Matches(r, NormalizeName(f.domain))) <==> SeenAlike(r, f, contains)
  {
    var d, p := Folded(f.domain), Folded(r.pattern);
    NormalizeIsUndotted(f.domain);
    NormalizeIsUndotted(r.pattern);
    hide NormalizeName, Folded, HasSuffix;
    if Undotted(p) != "" {
      SuffixAlike(d, p);
    }
  }

  lemma KeywordAlike(r: Rule, f: Fixture, contains: (string, string) -> bool)
    requires r.kind.DomainKeyword?
    ensures (MatchesFixture(r, f, contains) <==> Matches(r, NormalizeName(f.domain))) <==> SeenAlike(r, f, contains)
  {
    NameWindow(f.domain);
    OccursInWindow(Lower(f.domain), Lower(r.pattern), NameStart(f.domain), NameEnd(f.domain));
    assert |Lower(r.pattern)| == |r.pattern|;
  }

  predicate OnlyLastIsMatch(rs: seq<Rule>) {
    forall i :: 0 <= i < |rs| - 1 ==> !rs[i].kind.Match?
  }

  lemma FilterKeepsLast(rs: seq<Rule>, keep: Rule -> bool)
    requires OnlyLastIsMatch(rs)
    ensures OnlyLastIsMatch(Filter(rs, keep))
  {
    if rs != [] {
      var n := |rs| - 1;
      var init := Filter(rs[..n], keep);
      assert rs == rs[..n] + [rs[n]];
      FilterAppend(rs[..n], [rs[n]], keep);
      FilterCons(rs[n], [], keep);
      assert [rs[n]] + [] == [rs[n]];
      forall i | 0 <= i < |init| ensures !init[i].kind.Match? {
        assert init[i] in init;
      }
    }
  }

  // Validation puts MATCH last among all rules, hence last among the enabled ones.
  lemma MatchLastInScan(rs: seq<Rule>)
    requires MatchIsLast(rs)
    ensures OnlyLastIsMatch(ScanOrder(rs))
  {
    hide StableSort, Filter;
    FilterCommutesWithSort(rs, (r: Rule) => r.enabled);
    FilterKeepsLast(StableSort(rs), (r: Rule) => r.enabled);
  }

  lemma {:induction false} LastDefault(rs: seq<Rule>)
    requires OnlyLastIsMatch(rs)
    ensures DefaultAction(rs) == if rs != [] && rs[|rs| - 1].kind.Match? then rs[|rs| - 1].action else ""
  {
    if |rs| > 1 {
      LastDefault(rs[1..]);
    } else if |rs| == 1 {
      assert rs[1..] == [];
    }
  }

  lemma ScanMembers(rs: seq<Rule>)
    ensures forall r :: r in ScanOrder(rs) <==> r in rs && r.enabled
  {
    StableSortIsStable(Enabled(rs));
  }

  // The first scanned rule the two see differently, with no rule before it that either stops at.
  ghost predicate Disputed(sorted: seq<Rule>, f: Fixture, contains: (string, string) -> bool, k: nat) {
    && k < |sorted| && !sorted[k].kind.Match? && !SeenAlike(sorted[k], f, contains)
    && forall i :: 0 <= i < k ==> !sorted[i].kind.Match? && SeenAlike(sorted[i], f, contains)
                                  && !Matches(sorted[i], NormalizeName(f.domain))
  }

  // Where the dry run sends a fixture; one it cannot place is proxied by the resolver.
  function Verdict(sorted: seq<Rule>, hit: Option<nat>): Action {
    if hit.Some? && hit.value < |sorted| then ToAction(sorted[hit.value].action) else Proxy
  }

  lemma ScannedAlike(r: Rule, f: Fixture, contains: (string, string) -> bool)
    requires r.kind.Match? || SeenAlike(r, f, contains)
    ensures r.kind.Match? ==> MatchesFixture(r, f, contains) && !Matches(r, NormalizeName(f.domain))
    ensures !r.kind.Match? ==> (MatchesFixture(r, f, contains) <==> Matches(r, NormalizeName(f.domain)))
  {
    if !r.kind.Match? {
      hide SeenAlike, MatchesFixture, Matches;
      RuleAgreesExactly(r, f, contains);
    }
  }

  // Up to the first rule both stop at they agree, or nobody disputes anything before MATCH.
  lemma {:induction false} NoDispute(sorted: seq<Rule>, f: Fixture, contains: (string, string) -> bool, k: nat)
    requires k <= |sorted| && forall j: nat :: !Disputed(sorted, f, contains, j)
    requires OnlyLastIsMatch(sorted)
    ensures (forall i :: 0 <= i < k ==> !Matches(sorted[i], NormalizeName(f.domain))) ==>
              forall i :: 0 <= i < k ==> sorted[i].kind.Match? || SeenAlike(sorted[i], f, contains)
  {
    hide SeenAlike, Matches, NormalizeName;
    if k > 0 {
      NoDispute(sorted, f, contains, k - 1);
      assert !Disputed(sorted, f, contains, k - 1);
    }
  }

  /** The dry run's hit sends a name where the resolver sends it if they dispute no rule before it. Otherwise they agree
      exactly when the rule they dispute has an action of the class that the side passing over it finds without that
      rule: the resolver's answer on the shorter list where the dry run stops, the dry run's verdict on it where the
      resolver does. */
  lemma DryRunAgrees(rs: seq<Rule>, f: Fixture, contains: (string, string) -> bool, hit: Option<nat>)
    requires MatchIsLast(rs) && (forall r :: r in rs ==> r.action != "")
    requires FirstHit(ScanOrder(rs), f, contains, hit)
    ensures (forall k: nat :: !Disputed(ScanOrder(rs), f, contains, k)) ==>
              ActionFor(ScanOrder(rs), NormalizeName(f.domain)) == Verdict(ScanOrder(rs), hit)
    ensures forall k: nat, rest: Option<nat> ::
              Disputed(ScanOrder(rs), f, contains, k) && FirstHit(Without(ScanOrder(rs), k), f, contains, rest) ==>
                (ActionFor(ScanOrder(rs), NormalizeName(f.domain)) == Verdict(ScanOrder(rs), hit)
                 <==> ToAction(ScanOrder(rs)[k].action)
                      == if MatchesFixture(ScanOrder(rs)[k], f, contains)
                         then ActionFor(Without(ScanOrder(rs), k), NormalizeName(f.domain))
                         else Verdict(Without(ScanOrder(rs), k), rest))
  {
    var sorted, name := ScanOrder(rs), NormalizeName(f.domain);
    MatchLastInScan(rs);
    ScanMembers(rs);
    hide NormalizeName, MatchesFixture, Matches, StableSort, ToAction, SeenAlike, ScanOrder, MatchIsLast, Disputed,
         FirstHit, Verdict, ActionFor;
    if forall k: nat :: !Disputed(sorted, f, contains, k) {
      UndisputedAgrees(sorted, f, contains, hit);
    }
    forall k: nat, rest: Option<nat> |
      Disputed(sorted, f, contains, k) && FirstHit(Without(sorted, k), f, contains, rest)
      ensures ActionFor(sorted, name) == Verdict(sorted, hit)
              <==> ToAction(sorted[k].action)
                   == if MatchesFixture(sorted[k], f, contains) then ActionFor(Without(sorted, k), name)
                      else Verdict(Without(sorted, k), rest)
    {
      DisputeDecides(sorted, f, contains, hit, k, rest);
    }
  }

  // What each side answers at a disputed rule.
  lemma DisputeDecides(sorted: seq<Rule>, f: Fixture, contains: (string, string) -> bool, hit: Option<nat>, k: nat,
                       rest: Option<nat>)
    requires Disputed(sorted, f, contains, k) && FirstHit(sorted, f, contains, hit)
    requires FirstHit(Without(sorted, k), f, contains, rest)
    ensures if MatchesFixture(sorted[k], f, contains)
            then Verdict(sorted, hit) == ToAction(sorted[k].action)
                 && ActionFor(sorted, NormalizeName(f.domain)) == ActionFor(Without(sorted, k), NormalizeName(f.domain))
            else ActionFor(sorted, NormalizeName(f.domain)) == ToAction(sorted[k].action)
                 && Verdict(sorted, hit) == Verdict(Without(sorted, k), rest)
  {
    DisputedStops(sorted, f, contains, hit, k);
    DisputedKind(sorted, f, contains, k);
    hide NormalizeName, MatchesFixture, Matches, SeenAlike, ToAction, Disputed;
    if MatchesFixture(sorted[k], f, contains) {
      AnswerWithout(sorted, NormalizeName(f.domain), k);
    } else {
      HitWithout(sorted, f, contains, hit, k, rest);
    }
  }

  lemma DisputedKind(sorted: seq<Rule>, f: Fixture, contains: (string, string) -> bool, k: nat)
    requires Disputed(sorted, f, contains, k)
    ensures !sorted[k].kind.Match?
    ensures forall i :: 0 <= i < k ==> !Matches(sorted[i], NormalizeName(f.domain))
    ensures MatchesFixture(sorted[k], f, contains) ==> !Matches(sorted[k], NormalizeName(f.domain))
  {
    hide NormalizeName, MatchesFixture, Matches, SeenAlike;
    RuleAgreesExactly(sorted[k], f, contains);
  }

  // Taking out a rule that does not hit leaves the verdict.
  lemma HitWithout(sorted: seq<Rule>, f: Fixture, contains: (string, string) -> bool, hit: Option<nat>, k: nat,
                   rest: Option<nat>)
    requires k < |sorted| && !MatchesFixture(sorted[k], f, contains)
    requires FirstHit(sorted, f, contains, hit) && FirstHit(Without(sorted, k), f, contains, rest)
    ensures Verdict(sorted, hit) == Verdict(Without(sorted, k), rest)
  {
    hide MatchesFixture, ToAction;
    var short := Without(sorted, k);
    assert forall i :: 0 <= i < |short| ==> short[i] == if i < k then sorted[i] else sorted[i + 1];
    if hit.Some? {
      var j := if hit.value < k then hit.value else hit.value - 1;
      assert short[j] == sorted[hit.value];
      OneFirstHit(short, f, contains, rest, j);
    }
  }

  // At a disputed rule exactly one of the two stops.
  lemma DisputedStops(sorted: seq<Rule>, f: Fixture, contains: (string, string) -> bool, hit: Option<nat>, k: nat)
    requires Disputed(sorted, f, contains, k) && FirstHit(sorted, f, contains, hit)
    ensures k < |sorted|
    ensures MatchesFixture(sorted[k], f, contains) ==> hit == Some(k)
    ensures !MatchesFixture(sorted[k], f, contains) ==> FirstMatch(sorted, NormalizeName(f.domain)) == Some(k)
  {
    hide NormalizeName, MatchesFixture, Matches, SeenAlike;
    forall i | 0 <= i < k ensures !MatchesFixture(sorted[i], f, contains) {
      ScannedAlike(sorted[i], f, contains);
    }
    RuleAgreesExactly(sorted[k], f, contains);
    if MatchesFixture(sorted[k], f, contains) {
      OneFirstHit(sorted, f, contains, hit, k);
    } else {
      FirstMatchIs(sorted, NormalizeName(f.domain), k);
    }
  }

  lemma UndisputedAgrees(sorted: seq<Rule>, f: Fixture, contains: (string, string) -> bool, hit: Option<nat>)
    requires OnlyLastIsMatch(sorted) && (forall r :: r in sorted ==> r.action != "")
    requires FirstHit(sorted, f, contains, hit) && forall k: nat :: !Disputed(sorted, f, contains, k)
    ensures ActionFor(sorted, NormalizeName(f.domain)) == Verdict(sorted, hit)
  {
    hide NormalizeName, MatchesFixture, Matches, ToAction, SeenAlike, Disputed;
    var name := NormalizeName(f.domain);
    LastDefault(sorted);
    var stop := match FirstMatch(sorted, name) case Some(k) => k case None => |sorted|;
    NoDispute(sorted, f, contains, stop);
    forall i | 0 <= i < stop ensures sorted[i].kind.Match? <==> MatchesFixture(sorted[i], f, contains) {
      ScannedAlike(sorted[i], f, contains);
    }
    if stop < |sorted| {
      StopsTogether(sorted, f, contains, stop);
      OneFirstHit(sorted, f, contains, hit, stop);
    } else if sorted != [] && sorted[|sorted| - 1].kind.Match? {
      assert sorted[|sorted| - 1] in sorted;
      OneFirstHit(sorted, f, contains, hit, |sorted| - 1);
    }
  }

  // Where the resolver stops the dry run stops too.
  lemma StopsTogether(sorted: seq<Rule>, f: Fixture, contains: (string, string) -> bool, stop: nat)
    requires stop < |sorted| && FirstMatch(sorted, NormalizeName(f.domain)) == Some(stop) && OnlyLastIsMatch(sorted)
    requires !Disputed(sorted, f, contains, stop)
    requires forall i :: 0 <= i < stop ==> sorted[i].kind.Match? || SeenAlike(sorted[i], f, contains)
    requires forall i :: 0 <= i < stop ==> (sorted[i].kind.Match? <==> MatchesFixture(sorted[i], f, contains))
    ensures FirstHit(sorted, f, contains, Some(stop))
  {
    hide NormalizeName, MatchesFixture, SeenAlike;
    NotMatchKind(sorted[stop], NormalizeName(f.domain));
    ScannedAlike(sorted[stop], f, contains);
  }

  lemma NotMatchKind(r: Rule, name: string)
    requires Matches(r, name)
    ensures !r.kind.Match?
  {
  }

  lemma DotExample()
    ensures NormalizeName("a.") == "a" && NormalizeName("a") == "a"
    ensures Folded("a.") == "a." && Folded("a") == "a"
  {
    TrimIsIdentity("a.");
    TrimIsIdentity("a");
    assert Lower("a.") == "a." && Lower("a") == "a";
  }

  lemma BlockAction()
    ensures ToAction("block") == Block
  {
    TrimIsIdentity("block");
    assert Lower("block") == "block";
  }

  /** Only the resolver strips a trailing dot, so fully qualified fixtures can disagree. */
  lemma TrailingDotDisagrees(contains: (string, string) -> bool)
    ensures var r := Rule("x", Domain, "a", "block", 0, true);
            var f := Fixture("a.", "", "", "");
            FirstHit(ScanOrder([r]), f, contains, None)
            && ActionFor(ScanOrder([r]), NormalizeName(f.domain)) == Block
  {
    hide TrimSpace, Lower, ScanOrder, NormalizeName, Folded, ToAction;
    var r := Rule("x", Domain, "a", "block", 0, true);
    DotExample();
    BlockAction();
    SingleScan(r);
    assert Matches(r, "a");
    FirstMatchIs([r], "a", 0);
  }
}
