/** The resolver's answer read off the rules and the query as they stand: letter case, outer space and the final dot put
    in words of their own, and an answer that is the one and only one they allow. */
module Answers {
  import opened Text
  import opened Rules
  import opened RuleTable

  // ---------- what a name stands for ----------

  /** What a name or a pattern stands for: without outer blanks and one final dot, in small letters. */
  ghost predicate StandsFor(q: string, n: string) {
    exists lo: nat, hi: nat :: TrimsTo(q, lo, hi) && SmallOf(Undot(q[lo..hi]), n)
  }

  function Undot(s: string): string {
    if s != "" && s[|s| - 1] == '.' then s[..|s| - 1] else s
  }

  lemma UndotLower(s: string)
    ensures Lower(Undot(s)) == if HasSuffix(Lower(s), ".") then Lower(s)[..|s| - 1] else Lower(s)
  {
    if s != "" {
      assert Lower(s)[|s| - 1..] == [Lower(s)[|s| - 1]];
      assert s[|s| - 1] == '.' <==> LowerChar(s[|s| - 1]) == '.';
      LowerSlice(s, 0, |s| - 1);
    }
  }

  /** Normalizing a text gives that and nothing else. */
  lemma StandsForExactly(q: string, n: string)
    ensures NormalizeName(q) == n <==> StandsFor(q, n)
  {
    hide Lower, TrimSpace, HasSuffix, SmallOf, Undot;
    var lo, hi := TrimEnds(q);
    UndotLower(q[lo..hi]);
    if NormalizeName(q) == n {
      SmallExactly(Undot(q[lo..hi]), n);
    }
    if StandsFor(q, n) {
      var a: nat, b: nat :| TrimsTo(q, a, b) && SmallOf(Undot(q[a..b]), n);
      TrimsOnce(q, a, b);
      UndotLower(q[a..b]);
      SmallExactly(Undot(q[a..b]), n);
    }
  }

  // A name in small letters with no outer blank and no final dot.
  predicate AsItStands(q: string) {
    && (forall i :: 0 <= i < |q| ==> !Capital(q[i]))
    && (q != "" ==> !Blank(q[0]) && !Blank(q[|q| - 1]) && q[|q| - 1] != '.')
  }

  /** Such a name is compared as it stands. */
  lemma ComparedAsItStands(q: string)
    requires AsItStands(q)
    ensures StandsFor(q, q) && NormalizeName(q) == q
  {
    assert q[0..|q|] == q;
    assert TrimsTo(q, 0, |q|) && SmallOf(Undot(q[0..|q|]), q);
    StandsForExactly(q, q);
  }

  lemma TrimsInside(lead: string, core: string, trail: string)
    requires (forall i :: 0 <= i < |lead| ==> Blank(lead[i])) && (forall i :: 0 <= i < |trail| ==> Blank(trail[i]))
    requires core != "" && !Blank(core[0]) && !Blank(core[|core| - 1])
    ensures TrimSpace(lead + core + trail) == core
  {
    var wide := lead + core + trail;
    assert wide[|lead|..|lead| + |core|] == core;
    assert wide[|lead|] == core[0] && wide[|lead| + |core| - 1] == core[|core| - 1];
    assert TrimsTo(wide, |lead|, |lead| + |core|);
    TrimsOnce(wide, |lead|, |lead| + |core|);
  }

  /** Outer blanks, and one dot behind a name that has none, do not change what it stands for. */
  lemma OuterBlanksAndDotIgnored(lead: string, q: string, trail: string)
    requires (forall i :: 0 <= i < |lead| ==> Blank(lead[i])) && (forall i :: 0 <= i < |trail| ==> Blank(trail[i]))
    requires q != "" && !Blank(q[0]) && !Blank(q[|q| - 1])
    ensures NormalizeName(lead + q + trail) == NormalizeName(q)
    ensures q[|q| - 1] != '.' ==> NormalizeName(lead + (q + ".") + trail) == NormalizeName(q)
  {
    hide Lower, TrimSpace, HasSuffix, Blank;
    TrimsInside("", q, "");
    assert "" + q + "" == q;
    TrimsInside(lead, q, trail);
    if q[|q| - 1] != '.' {
      DotIsNoBlank();
      TrimsInside(lead, q + ".", trail);
      UndotLower(q + ".");
      UndotLower(q);
      assert (q + ".")[..|q|] == q;
    }
  }

  lemma DotIsNoBlank()
    ensures !Blank('.')
  {
  }

  // ---------- what an action text asks for ----------

  ghost predicate AsksFor(action: string, result: Action) {
    exists lo: nat, hi: nat :: TrimsTo(action, lo, hi) && result == ActionNamed(action[lo..hi])
  }

  function ActionNamed(w: string): Action {
    if SameButCase(w, "block") || SameButCase(w, "reject") then Block
    else if SameButCase(w, "direct") then Direct
    else Proxy
  }

  /** block, reject and direct in any case and between any blanks; everything else is the proxy. */
  lemma AsksForExactly(action: string, result: Action)
    ensures ToAction(action) == result <==> AsksFor(action, result)
  {
    hide Lower, SameButCase, TrimSpace;
    var lo, hi := TrimEnds(action);
    var w := action[lo..hi];
    WordExactly(w, "block");
    WordExactly(w, "reject");
    WordExactly(w, "direct");
    assert ToAction(action) == ActionNamed(w);
    if AsksFor(action, result) {
      var a: nat, b: nat :| TrimsTo(action, a, b) && result == ActionNamed(action[a..b]);
      TrimsOnce(action, a, b);
    }
  }

  // ---------- what a rule hits ----------

  // n is p or a domain below it.
  predicate Under(n: string, p: string) {
    n == p || (|p| < |n| && n[|n| - |p|..] == p && n[|n| - |p| - 1] == '.')
  }

  // pattern in small letters stands at position i of n.
  predicate SmallAt(pattern: string, n: string, i: nat) {
    i + |pattern| <= |n| && SmallOf(pattern, n[i..i + |pattern|])
  }

  ghost predicate Hits(r: Rule, n: string) {
    match r.kind
    case Domain => StandsFor(r.pattern, n)
    case DomainSuffix => exists p :: StandsFor(r.pattern, p) && p != "" && Under(n, p)
    case DomainKeyword => exists i: nat :: SmallAt(r.pattern, n, i)
    case _ => false
  }

  lemma UnderExactly(n: string, p: string)
    ensures IsDomainSuffix(n, p) <==> Under(n, p)
  {
    if |p| < |n| {
      assert n[|n| - |p| - 1..] == [n[|n| - |p| - 1]] + n[|n| - |p|..];
    }
  }

  lemma KeywordExactly(n: string, pattern: string)
    ensures Contains(n, Lower(pattern)) <==> exists i: nat :: SmallAt(pattern, n, i)
  {
    hide SmallOf;
    assert |Lower(pattern)| == |pattern|;
    if Contains(n, Lower(pattern)) {
      var i: nat :| i <= |n| && OccursAt(n, Lower(pattern), i);
      SmallExactly(pattern, n[i..i + |pattern|]);
      assert SmallAt(pattern, n, i);
    }
    if i: nat :| SmallAt(pattern, n, i) {
      SmallExactly(pattern, n[i..i + |pattern|]);
      assert OccursAt(n, Lower(pattern), i);
    }
  }

  /** The table's test of a rule is that reading of it. */
  lemma HitsExactly(r: Rule, n: string)
    ensures Matches(r, n) <==> Hits(r, n)
  {
    hide Contains, StandsFor, NormalizeName, IsDomainSuffix, Under, SmallOf, Lower;
    match r.kind {
      case Domain => StandsForExactly(r.pattern, n);
      case DomainSuffix =>
        StandsForExactly(r.pattern, NormalizeName(r.pattern));
        UnderExactly(n, NormalizeName(r.pattern));
        if p :| StandsFor(r.pattern, p) && p != "" && Under(n, p) {
          StandsForExactly(r.pattern, p);
        }
      case DomainKeyword => KeywordExactly(n, r.pattern);
      case _ =>
    }
  }

  // ---------- the whole answer ----------

  // The enabled rules by priority, those of one priority as they were written.
  ghost predicate InForce(rs: seq<Rule>, order: seq<Rule>) {
    Sorted(order) && forall p :: AtPriority(order, p) == AtPriority(Enabled(rs), p)
  }

  ghost predicate FirstHit(order: seq<Rule>, n: string, k: nat) {
    k < |order| && Hits(order[k], n) && forall i :: 0 <= i < k ==> !Hits(order[i], n)
  }

  predicate Defaults(r: Rule) {
    r.kind.Match? && r.action != ""
  }

  predicate FirstDefault(order: seq<Rule>, k: nat) {
    k < |order| && Defaults(order[k]) && forall i :: 0 <= i < k ==> !Defaults(order[i])
  }

  // The action of the first rule that hits, else of the first MATCH rule that has one, else the proxy.
  ghost predicate Decides(order: seq<Rule>, n: string, result: Action) {
    || (exists k: nat :: FirstHit(order, n, k) && AsksFor(order[k].action, result))
    || ((forall i :: 0 <= i < |order| ==> !Hits(order[i], n))
        && ((exists k: nat :: FirstDefault(order, k) && AsksFor(order[k].action, result))
            || ((forall i :: 0 <= i < |order| ==> !Defaults(order[i])) && result == Proxy)))
  }

  ghost predicate Answered(rs: seq<Rule>, q: string, result: Action) {
    exists order, n :: InForce(rs, order) && StandsFor(q, n) && Decides(order, n, result)
  }

  lemma {:induction false} DefaultExactly(order: seq<Rule>)
    ensures DefaultAction(order) != "" ==>
              exists k: nat :: FirstDefault(order, k) && order[k].action == DefaultAction(order)
    ensures DefaultAction(order) == "" <==> forall i :: 0 <= i < |order| ==> !Defaults(order[i])
  {
    if order != [] {
      DefaultExactly(order[1..]);
      if Defaults(order[0]) {
        assert FirstDefault(order, 0);
      } else if DefaultAction(order[1..]) != "" {
        var k: nat :| FirstDefault(order[1..], k) && order[1..][k].action == DefaultAction(order[1..]);
        assert order[1..][k] == order[k + 1];
        assert FirstDefault(order, k + 1);
      }
    }
  }

  lemma DecidesExactly(order: seq<Rule>, n: string, result: Action)
    ensures ActionFor(order, n) == result <==> Decides(order, n, result)
  {
    hide Hits, Matches, AsksFor, ToAction, DefaultAction, Defaults;
    forall r ensures Matches(r, n) <==> Hits(r, n) {
      HitsExactly(r, n);
    }
    forall action ensures ToAction(action) == result <==> AsksFor(action, result) {
      AsksForExactly(action, result);
    }
    match FirstMatch(order, n) {
      case Some(k) =>
        assert FirstHit(order, n, k);
        assert forall l: nat :: FirstHit(order, n, l) ==> l == k;
      case None =>
        DefaultExactly(order);
        assert forall k: nat, l: nat :: FirstDefault(order, k) && FirstDefault(order, l) ==> k == l;
    }
  }

  lemma ScanOrderExactly(rs: seq<Rule>, order: seq<Rule>)
    ensures ScanOrder(rs) == order <==> InForce(rs, order)
  {
    StableSortIsStable(Enabled(rs));
    if InForce(rs, order) {
      forall p ensures AtPriority(order, p) == AtPriority(ScanOrder(rs), p) {
        assert AtPriority(order, p) == AtPriority(Enabled(rs), p);
      }
      StableOrderIsUnique(order, ScanOrder(rs));
    }
  }

  /** What a built table answers is, for every rule list and every name, the one answer that reading allows. */
  lemma AnsweredExactly(rs: seq<Rule>, q: string, result: Action)
    ensures ActionFor(ScanOrder(rs), NormalizeName(q)) == result <==> Answered(rs, q, result)
  {
    hide ScanOrder, NormalizeName, ActionFor, InForce, StandsFor, Decides;
    ScanOrderExactly(rs, ScanOrder(rs));
    StandsForExactly(q, NormalizeName(q));
    DecidesExactly(ScanOrder(rs), NormalizeName(q), result);
    if Answered(rs, q, result) {
      var order, n :| InForce(rs, order) && StandsFor(q, n) && Decides(order, n, result);
      ScanOrderExactly(rs, order);
      StandsForExactly(q, n);
    }
  }

  /** A built table answers every name as the scan of the enabled rules in stable priority order, and so as they read. */
  method BuildAndClassify(rs: seq<Rule>, qname: string) returns (result: Action)
    ensures result == ActionFor(ScanOrder(rs), NormalizeName(qname))
    ensures Answered(rs, qname, result)
  {
    var t := BuildTable(rs);
    result := t.Classify(qname);
    AnsweredExactly(rs, qname, result);
  }

  // ---------- case never matters ----------

  lemma SameInSmall(s: string, t: string)
    requires SameButCase(s, t)
    ensures Lower(s) == Lower(t) && Lower(TrimSpace(s)) == Lower(TrimSpace(t)) && NormalizeName(s) == NormalizeName(t)
  {
    var lo, hi := TrimEnds(s);
    assert TrimsTo(t, lo, hi) by {
      forall i | 0 <= i < |s| ensures Blank(s[i]) <==> Blank(t[i]) {
        assert SameLetter(s[i], t[i]);
      }
    }
    TrimsOnce(t, lo, hi);
    forall i | 0 <= i < |s| ensures Lower(s)[i] == Lower(t)[i] {
      assert SameLetter(s[i], t[i]);
    }
    LowerSlice(s, lo, hi);
    LowerSlice(t, lo, hi);
  }

  // The same rule but for the case of its pattern and of its action.
  predicate Alike(r: Rule, r': Rule) {
    && r' == r.(pattern := r'.pattern, action := r'.action)
    && SameButCase(r.pattern, r'.pattern) && SameButCase(r.action, r'.action)
  }

  predicate AllAlike(rs: seq<Rule>, rs': seq<Rule>) {
    |rs| == |rs'| && forall i :: 0 <= i < |rs| ==> Alike(rs[i], rs'[i])
  }

  lemma AlikeCons(r: Rule, r': Rule, rs: seq<Rule>, rs': seq<Rule>)
    requires Alike(r, r') && AllAlike(rs, rs')
    ensures AllAlike([r] + rs, [r'] + rs') && r.enabled == r'.enabled
  {
    hide SameButCase;
  }

  lemma {:induction false} EnabledAlike(rs: seq<Rule>, rs': seq<Rule>)
    requires AllAlike(rs, rs')
    ensures AllAlike(Enabled(rs), Enabled(rs'))
  {
    if rs != [] {
      assert Alike(rs[0], rs'[0]);
      EnabledAlike(rs[1..], rs'[1..]);
      FilterCons(rs[0], rs[1..], (r: Rule) => r.enabled);
      FilterCons(rs'[0], rs'[1..], (r: Rule) => r.enabled);
      AlikeCons(rs[0], rs'[0], Enabled(rs[1..]), Enabled(rs'[1..]));
      hide Alike, AllAlike, Filter;
      assert rs == [rs[0]] + rs[1..] && rs' == [rs'[0]] + rs'[1..];
      assert [] + Enabled(rs[1..]) == Enabled(rs[1..]) && [] + Enabled(rs'[1..]) == Enabled(rs'[1..]);
    }
  }

  lemma {:induction false} InsertAlike(r: Rule, r': Rule, rs: seq<Rule>, rs': seq<Rule>)
    requires Alike(r, r') && AllAlike(rs, rs')
    ensures AllAlike(InsertByPriority(r, rs), InsertByPriority(r', rs'))
  {
    hide SameButCase;
    if rs != [] {
      assert Alike(rs[0], rs'[0]);
      InsertAlike(r, r', rs[1..], rs'[1..]);
    }
  }

  lemma {:induction false} SortAlike(rs: seq<Rule>, rs': seq<Rule>)
    requires AllAlike(rs, rs')
    ensures AllAlike(StableSort(rs), StableSort(rs'))
  {
    if rs != [] {
      var n := |rs| - 1;
      assert Alike(rs[n], rs'[n]);
      SortAlike(rs[..n], rs'[..n]);
      InsertAlike(rs[n], rs'[n], StableSort(rs[..n]), StableSort(rs'[..n]));
    }
  }

  lemma MatchesAlike(r: Rule, r': Rule, n: string)
    requires Alike(r, r')
    ensures Matches(r, n) <==> Matches(r', n)
    ensures ToAction(r.action) == ToAction(r'.action) && (r.action == "" <==> r'.action == "")
  {
    SameInSmall(r.pattern, r'.pattern);
    SameInSmall(r.action, r'.action);
    hide Lower, NormalizeName, TrimSpace, Contains, IsDomainSuffix;
  }

  lemma {:induction false} DefaultAlike(rs: seq<Rule>, rs': seq<Rule>)
    requires AllAlike(rs, rs')
    ensures ToAction(DefaultAction(rs)) == ToAction(DefaultAction(rs'))
    ensures DefaultAction(rs) == "" <==> DefaultAction(rs') == ""
  {
    hide ToAction;
    if rs != [] {
      assert Alike(rs[0], rs'[0]);
      MatchesAlike(rs[0], rs'[0], "");
      DefaultAlike(rs[1..], rs'[1..]);
    }
  }

  /** Two lists whose patterns and actions differ only in case give two names that differ only in case the same answer. */
  lemma CaseNeverMatters(rs: seq<Rule>, rs': seq<Rule>, q: string, q': string)
    requires AllAlike(rs, rs') && SameButCase(q, q')
    ensures ActionFor(ScanOrder(rs), NormalizeName(q)) == ActionFor(ScanOrder(rs'), NormalizeName(q'))
  {
    EnabledAlike(rs, rs');
    SortAlike(Enabled(rs), Enabled(rs'));
    SameInSmall(q, q');
    var order, order', n := ScanOrder(rs), ScanOrder(rs'), NormalizeName(q);
    DefaultAlike(order, order');
    hide NormalizeName, ToAction, DefaultAction, Matches, ScanOrder, Alike;
    forall i | 0 <= i < |order|
      ensures Matches(order[i], n) == Matches(order'[i], n) && ToAction(order[i].action) == ToAction(order'[i].action)
    {
      MatchesAlike(order[i], order'[i], n);
    }
    match FirstMatch(order, n) {
      case Some(k) => FirstMatchIs(order', n, k);
      case None =>
    }
  }
}
