/** The rule lines handed to mihomo, in the order the resolver's table ranks the same rules. */
module Mihomo {
  import opened Text
  import opened Rules
  import opened RuleTable
  import DryRun

  function KindName(k: Kind): string {
    match k
    case Domain => "DOMAIN"
    case DomainSuffix => "DOMAIN-SUFFIX"
    case DomainKeyword => "DOMAIN-KEYWORD"
    case GeoSite => "GEOSITE"
    case GeoIP => "GEOIP"
    case IpCidr => "IP-CIDR"
    case RuleSetRef => "RULE-SET"
    case Match => "MATCH"
    case Unknown(name) => name
  }

  /** Rule.ToMihomoLine; None is the error return. */
  function ToLine(r: Rule): Option<string> {
    if r.kind.Match? then
      if TrimSpace(r.action) == "" then None else Some("MATCH," + r.action)
    else if TrimSpace(r.pattern) == "" || TrimSpace(r.action) == "" then None
    else Some(KindName(r.kind) + "," + r.pattern + "," + r.action)
  }

  /** mihomoAction; None is the error return. */
  function CanonicalAction(action: string, exitNames: seq<string>): Option<string> {
    var a := TrimSpace(action);
    var low := Lower(a);
    if low == "block" || low == "reject" then Some("REJECT")
    else if low == "direct" then Some("DIRECT")
    else if low == "proxy" then Some("PROXY")
    else if a in exitNames then Some(a)
    else None
  }

  /** mihomo and the resolver put every action in the same class. */
  lemma SameActionClass(action: string, exitNames: seq<string>)
    ensures CanonicalAction(action, exitNames) == Some("REJECT") <==> ToAction(action) == Block
    ensures CanonicalAction(action, exitNames) == Some("DIRECT") <==> ToAction(action) == Direct
    ensures CanonicalAction(action, exitNames).None? ==> ToAction(action) == Proxy
  {
    assert Lower("REJECT") == "reject" && Lower("DIRECT") == "direct";
  }

  function LineOf(r: Rule, exitNames: seq<string>): Option<string> {
    match CanonicalAction(r.action, exitNames)
    case None => None
    case Some(a) => ToLine(r.(action := a))
  }

  // ---------- a line as it is read ----------

  ghost predicate CallsFor(action: string, exitNames: seq<string>, target: Option<string>) {
    exists lo: nat, hi: nat :: TrimsTo(action, lo, hi) && target == Target(action[lo..hi], exitNames)
  }

  function Target(w: string, exitNames: seq<string>): Option<string> {
    if SameButCase(w, "block") || SameButCase(w, "reject") then Some("REJECT")
    else if SameButCase(w, "direct") then Some("DIRECT")
    else if SameButCase(w, "proxy") then Some("PROXY")
    else if exists i :: 0 <= i < |exitNames| && exitNames[i] == w then Some(w)
    else None
  }

  /** The four words in any case and between any blanks, else the name of an exit as it stands, else nothing. */
  lemma CallsForExactly(action: string, exitNames: seq<string>, target: Option<string>)
    ensures CanonicalAction(action, exitNames) == target <==> CallsFor(action, exitNames, target)
  {
    hide Lower, SameButCase, TrimSpace;
    var lo, hi := TrimEnds(action);
    var w := action[lo..hi];
    WordExactly(w, "block");
    WordExactly(w, "reject");
    WordExactly(w, "direct");
    WordExactly(w, "proxy");
    assert CanonicalAction(action, exitNames) == Target(w, exitNames);
    if CallsFor(action, exitNames, target) {
      var a: nat, b: nat :| TrimsTo(action, a, b) && target == Target(action[a..b], exitNames);
      TrimsOnce(action, a, b);
    }
  }

  // The comma-separated fields of the line for a rule of a known kind.
  predicate Fields(r: Rule, target: string, fields: seq<string>) {
    match r.kind
    case Domain => fields == ["DOMAIN", r.pattern, target]
    case DomainSuffix => fields == ["DOMAIN-SUFFIX", r.pattern, target]
    case DomainKeyword => fields == ["DOMAIN-KEYWORD", r.pattern, target]
    case GeoSite => fields == ["GEOSITE", r.pattern, target]
    case GeoIP => fields == ["GEOIP", r.pattern, target]
    case IpCidr => fields == ["IP-CIDR", r.pattern, target]
    case RuleSetRef => fields == ["RULE-SET", r.pattern, target]
    case Match => fields == ["MATCH", target]
    case Unknown(_) => false
  }

  lemma TwoFields(a: string, b: string)
    requires ',' !in a && ',' !in b
    ensures Split(a + "," + b, ',') == [a, b]
  {
    hide Split;
    SplitWhole(a, ',');
    SplitWhole(b, ',');
    SplitAt(a, ',', b);
  }

  lemma ThreeFields(a: string, b: string, c: string)
    requires ',' !in a && ',' !in b && ',' !in c
    ensures Split(a + "," + b + "," + c, ',') == [a, b, c]
  {
    hide Split;
    TwoFields(b, c);
    SplitWhole(a, ',');
    SplitAt(a, ',', b + "," + c);
    assert a + "," + (b + "," + c) == a + "," + b + "," + c;
  }

  /** A rule has a line exactly when its action calls for something and, but for MATCH, its pattern is not blank; and
      splitting that line at its commas gives the kind, the pattern and what the action calls for. */
  lemma LineReadsBack(r: Rule, exitNames: seq<string>)
    requires !r.kind.Unknown? && ',' !in r.pattern && ',' !in r.action
    ensures var target := CanonicalAction(r.action, exitNames);
            match LineOf(r, exitNames)
            case Some(line) =>
              && target.Some? && !AllBlank(target.value) && (r.kind.Match? || !AllBlank(r.pattern))
              && Fields(r, target.value, Split(line, ','))
            case None => target.None? || AllBlank(target.value) || (!r.kind.Match? && AllBlank(r.pattern))
  {
    hide Split, TrimSpace, CanonicalAction;
    BlankExactly(r.pattern);
    var target := CanonicalAction(r.action, exitNames);
    if target.Some? {
      BlankExactly(target.value);
      NoCommaInTarget(r.action, exitNames);
      if r.kind.Match? {
        TwoFields("MATCH", target.value);
        assert "MATCH" + "," == "MATCH,";
      } else {
        ThreeFields(KindName(r.kind), r.pattern, target.value);
      }
    }
  }

  lemma NoCommaInTarget(action: string, exitNames: seq<string>)
    requires ',' !in action && CanonicalAction(action, exitNames).Some?
    ensures ',' !in CanonicalAction(action, exitNames).value
  {
    var lo, hi := TrimEnds(action);
  }

  /** So no two lines are confused: the same line means the same kind, pattern and target. */
  lemma LinesTellApart(r: Rule, q: Rule, exitNames: seq<string>)
    requires !r.kind.Unknown? && ',' !in r.pattern && ',' !in r.action
    requires !q.kind.Unknown? && ',' !in q.pattern && ',' !in q.action
    requires LineOf(r, exitNames).Some? && LineOf(r, exitNames) == LineOf(q, exitNames)
    ensures r.kind == q.kind && (!r.kind.Match? ==> r.pattern == q.pattern)
    ensures CanonicalAction(r.action, exitNames) == CanonicalAction(q.action, exitNames)
  {
    hide Split, CanonicalAction, LineOf;
    LineReadsBack(r, exitNames);
    LineReadsBack(q, exitNames);
    var fields := Split(LineOf(r, exitNames).value, ',');
    assert fields[0] == fields[0] && fields[|fields| - 1] == CanonicalAction(r.action, exitNames).value;
  }

  // ---------- all lines ----------

  // The lines of a rule list, None as soon as one rule has no line.
  function LinesOf(rs: seq<Rule>, exitNames: seq<string>): (out: Option<seq<string>>)
    ensures out.Some? ==> |out.value| == |rs|
                          && forall i :: 0 <= i < |rs| ==> LineOf(rs[i], exitNames) == Some(out.value[i])
  {
    if rs == [] then Some([])
    else match LinesOf(rs[..|rs| - 1], exitNames)
      case None => None
      case Some(ls) =>
        match LineOf(rs[|rs| - 1], exitNames)
        case None => None
        case Some(l) => Some(ls + [l])
  }

  lemma {:induction false} LinesStop(rs: seq<Rule>, k: nat, exitNames: seq<string>)
    requires k < |rs| && LineOf(rs[k], exitNames).None?
    ensures LinesOf(rs, exitNames).None?
  {
    if k < |rs| - 1 {
      LinesStop(rs[..|rs| - 1], k, exitNames);
    }
  }

  predicate EnabledMatch(r: Rule) {
    r.enabled && r.kind.Match?
  }

  function NonMatch(rs: seq<Rule>): seq<Rule> {
    Filter(rs, (r: Rule) => r.enabled && !r.kind.Match?)
  }

  // The order of the emitted rules: the others by priority, then the last enabled MATCH rule.
  function Emitted(rs: seq<Rule>): seq<Rule> {
    StableSort(NonMatch(rs)) + LastMatch(rs)
  }

  function LastMatch(rs: seq<Rule>): seq<Rule> {
    if rs == [] then []
    else if EnabledMatch(rs[|rs| - 1]) then [rs[|rs| - 1]]
    else LastMatch(rs[..|rs| - 1])
  }

  function WithFallback(lines: Option<seq<string>>, rs: seq<Rule>, active: string): Option<seq<string>> {
    if lines.Some? && LastMatch(rs) == [] then Some(lines.value + ["MATCH," + active]) else lines
  }

  method Partition(rs: seq<Rule>) returns (nonMatch: seq<Rule>, matchRule: Option<Rule>)
    ensures nonMatch == NonMatch(rs)
    ensures LastMatch(rs) == if matchRule.Some? then [matchRule.value] else []
  {
    nonMatch, matchRule := [], None;
    for i := 0 to |rs|
      invariant nonMatch == NonMatch(rs[..i])
      invariant LastMatch(rs[..i]) == if matchRule.Some? then [matchRule.value] else []
    {
      var r := rs[i];
      var keep := (q: Rule) => q.enabled && !q.kind.Match?;
      assert rs[..i + 1] == rs[..i] + [r];
      assert rs[..i + 1][..i] == rs[..i];
      FilterAppend(rs[..i], [r], keep);
      FilterCons(r, [], keep);
      assert [r] + [] == [r];
      if r.enabled {
        if r.kind.Match? {
          matchRule := Some(r);
        } else {
          nonMatch := nonMatch + [r];
        }
      }
    }
    assert rs[..|rs|] == rs;
  }

  lemma LinesExtend(rs: seq<Rule>, i: nat, exitNames: seq<string>)
    requires i < |rs|
    ensures LinesOf(rs[..i + 1], exitNames) ==
            match LinesOf(rs[..i], exitNames)
            case None => None
            case Some(ls) =>
              match LineOf(rs[i], exitNames)
              case None => None
              case Some(l) => Some(ls + [l])
  {
    assert rs[..i + 1][..i] == rs[..i];
  }

  /** buildRuleLines: partition, sort, emit, and close with a MATCH line. */
  method BuildRuleLines(rs: seq<Rule>, active: string, exitNames: seq<string>) returns (out: Option<seq<string>>)
    ensures out == WithFallback(LinesOf(Emitted(rs), exitNames), rs, active)
  {
    hide LineOf, StableSort, Filter;
    if |rs| == 0 {
      EmptyEmits(rs);
      assert [] + ["MATCH," + active] == ["MATCH," + active];
      return Some(["MATCH," + active]);
    }
    var nonMatch, matchRule := Partition(rs);
    var sorted := StableSort(nonMatch);
    var all := Emitted(rs);
    var lines: seq<string> := [];
    for i := 0 to |sorted|
      invariant LinesOf(all[..i], exitNames) == Some(lines)
    {
      LinesExtend(all, i, exitNames);
      match LineOf(sorted[i], exitNames) {
        case None =>
          LinesStop(all, i, exitNames);
          return None;
        case Some(line) =>
          lines := lines + [line];
      }
    }
    match matchRule {
      case Some(m) =>
        LinesExtend(all, |sorted|, exitNames);
        assert all[..|sorted| + 1] == all;
        match LineOf(m, exitNames) {
          case None => return None;
          case Some(line) => return Some(lines + [line]);
        }
      case None =>
        assert all[..|sorted|] == all;
        return Some(lines + ["MATCH," + active]);
    }
  }

  lemma EmptyEmits(rs: seq<Rule>)
    requires rs == []
    ensures Emitted(rs) == []
  {
  }

  lemma {:induction false} NoLastMatch(rs: seq<Rule>)
    requires LastMatch(rs) == []
    ensures NonMatch(rs) == Enabled(rs)
  {
    if rs != [] {
      NoLastMatch(rs[..|rs| - 1]);
      var last := rs[|rs| - 1];
      assert rs == rs[..|rs| - 1] + [last];
      FilterAppend(rs[..|rs| - 1], [last], (r: Rule) => r.enabled && !r.kind.Match?);
      FilterAppend(rs[..|rs| - 1], [last], (r: Rule) => r.enabled);
      assert [last][1..] == [];
    }
  }

  /** Of several enabled MATCH rules the last one written is emitted, whatever its priority. */
  lemma {:induction false} LastMatchIsEnabledMatch(rs: seq<Rule>)
    ensures |LastMatch(rs)| <= 1
    ensures LastMatch(rs) == [] <==> forall i :: 0 <= i < |rs| ==> !EnabledMatch(rs[i])
    ensures LastMatch(rs) != [] ==>
              exists k :: 0 <= k < |rs| && rs[k] == LastMatch(rs)[0] && EnabledMatch(rs[k])
                          && forall i :: k < i < |rs| ==> !EnabledMatch(rs[i])
  {
    if rs != [] {
      LastMatchIsEnabledMatch(rs[..|rs| - 1]);
      if !EnabledMatch(rs[|rs| - 1]) && LastMatch(rs) != [] {
        var init := rs[..|rs| - 1];
        var k :| 0 <= k < |init| && init[k] == LastMatch(init)[0] && EnabledMatch(init[k])
                 && forall i :: k < i < |init| ==> !EnabledMatch(init[i]);
        assert rs[k] == init[k];
        forall i | k < i < |rs| ensures !EnabledMatch(rs[i]) {
          if i < |init| {
            assert rs[i] == init[i];
          }
        }
      }
    }
  }

  // A scan that ends in MATCH is the other rules in order, then that rule.
  lemma SplitOffMatch(rs: seq<Rule>, scan: seq<Rule>, m: Rule)
    requires scan == ScanOrder(rs) && DryRun.OnlyLastIsMatch(scan) && m in scan && m.kind.Match?
    ensures scan == StableSort(NonMatch(rs)) + [m]
  {
    hide StableSort, Filter;
    var other := (r: Rule) => !r.kind.Match?;
    var n := |scan| - 1;
    assert scan == scan[..n] + [m];
    FilterTwice(rs, (r: Rule) => r.enabled, other, (r: Rule) => r.enabled && !r.kind.Match?);
    FilterCommutesWithSort(Enabled(rs), other);
    FilterAppend(scan[..n], [m], other);
    FilterAll(scan[..n], other);
    FilterNone([m], other);
    assert scan[..n] + [] == scan[..n];
  }

  /** For a set whose MATCH rule is placed last, the emitted order is the table's rank order
      and the dry run's scan order. */
  lemma EmittedIsScanOrder(rs: seq<Rule>)
    requires MatchIsLast(rs)
    ensures Emitted(rs) == ScanOrder(rs)
  {
    hide StableSort, Filter, DryRun.OnlyLastIsMatch, LastMatch;
    LastMatchIsEnabledMatch(rs);
    if LastMatch(rs) == [] {
      NoLastMatch(rs);
      assert StableSort(NonMatch(rs)) + [] == StableSort(NonMatch(rs));
    } else {
      DryRun.MatchLastInScan(rs);
      DryRun.ScanMembers(rs);
      SplitOffMatch(rs, ScanOrder(rs), LastMatch(rs)[0]);
      assert LastMatch(rs) == [LastMatch(rs)[0]];
    }
  }

  /** Consequently line i is rule i of the resolver's scan; only the synthetic MATCH line is extra. */
  lemma LinesFollowScan(rs: seq<Rule>, active: string, exitNames: seq<string>, lines: seq<string>)
    requires MatchIsLast(rs)
    requires WithFallback(LinesOf(Emitted(rs), exitNames), rs, active) == Some(lines)
    ensures |lines| == |ScanOrder(rs)| + (if exists r :: r in rs && EnabledMatch(r) then 0 else 1)
    ensures forall i :: 0 <= i < |ScanOrder(rs)| ==> LineOf(ScanOrder(rs)[i], exitNames) == Some(lines[i])
    ensures |lines| > |ScanOrder(rs)| ==> lines[|ScanOrder(rs)|] == "MATCH," + active
  {
    hide StableSort, LineOf;
    EmittedIsScanOrder(rs);
    LastMatchIsEnabledMatch(rs);
    if LastMatch(rs) == [] {
      NoLastMatch(rs);
      assert forall r :: r in Enabled(rs) <==> r in NonMatch(rs);
    }
  }
}
