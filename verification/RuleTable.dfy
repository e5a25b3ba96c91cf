/** The resolver's rule index: an exact map, a trie over reversed labels and a ranked keyword
    list, proved to answer every name like a first-match scan of the priority-sorted rules. */
module RuleTable {
  import opened Text
  import opened Rules

  function NormalizeName(s: string): string {
    var t := Lower(TrimSpace(s));
    if HasSuffix(t, ".") then t[..|t| - 1] else t
  }

  function SplitLabels(name: string): seq<string> {
    if name == "" then [] else Split(name, '.')
  }

  datatype RankedAction = RankedAction(action: string, rank: nat)
  datatype KeywordRule = KeywordRule(keyword: string, action: string, rank: nat)
  datatype Action = Block | Direct | Proxy

  function ToAction(s: string): Action {
    var t := Lower(TrimSpace(s));
    if t == "block" || t == "reject" then Block
    else if t == "direct" then Direct
    else Proxy
  }

  // ---------- the meaning of a rule list ----------

  // p names `name` itself or one of the domains above it.
  predicate IsDomainSuffix(name: string, p: string) {
    name == p || HasSuffix(name, "." + p)
  }

  /** Does r match the already normalized name? A suffix pattern that normalizes to "" matches nothing. */
  predicate Matches(r: Rule, name: string) {
    match r.kind
    case Domain => NormalizeName(r.pattern) == name
    case DomainSuffix =>
      NormalizeName(r.pattern) != "" && IsDomainSuffix(name, NormalizeName(r.pattern))
    case DomainKeyword => Contains(name, Lower(r.pattern))
    case _ => false
  }

  function FirstMatch(rs: seq<Rule>, name: string): (r: Option<nat>)
    ensures r.Some? ==> r.value < |rs| && Matches(rs[r.value], name)
                        && forall i :: 0 <= i < r.value ==> !Matches(rs[i], name)
    ensures r.None? ==> forall i :: 0 <= i < |rs| ==> !Matches(rs[i], name)
  {
    if rs == [] then None
    else if Matches(rs[0], name) then Some(0)
    else match FirstMatch(rs[1..], name)
      case None => None
      case Some(i) => Some(i + 1)
  }

  lemma FirstMatchIs(rs: seq<Rule>, name: string, k: nat)
    requires k < |rs| && Matches(rs[k], name)
    requires forall i :: 0 <= i < |rs| && Matches(rs[i], name) ==> k <= i
    ensures FirstMatch(rs, name) == Some(k)
  {
    match FirstMatch(rs, name)
    case None => assert false;
    case Some(i) => assert k <= i;
  }

  // The action of the first MATCH rule that carries one.
  function DefaultAction(rs: seq<Rule>): string {
    if rs == [] then ""
    else if rs[0].kind.Match? && rs[0].action != "" then rs[0].action
    else DefaultAction(rs[1..])
  }

  /** First-match semantics of a sorted list of enabled rules. */
  function ActionFor(sorted: seq<Rule>, name: string): Action {
    match FirstMatch(sorted, name)
    case Some(i) => ToAction(sorted[i].action)
    case None => if DefaultAction(sorted) != "" then ToAction(DefaultAction(sorted)) else Proxy
  }

  // What the documentation of suffix rules suggests, with no exception for empty patterns.
  predicate PlainMatches(r: Rule, name: string) {
    if r.kind.DomainSuffix? then IsDomainSuffix(name, NormalizeName(r.pattern)) else Matches(r, name)
  }

  /** The table honours a suffix rule exactly unless its pattern is blank once normalized
      and the name is empty or still ends in a dot. */
  lemma SuffixRuleHonoured(r: Rule, name: string)
    ensures (Matches(r, name) <==> PlainMatches(r, name))
            <==> !Bypassed(r, name)
  {
    assert "." + "" == ".";
  }

  // A blank suffix rule and a name it would have to match.
  predicate Bypassed(r: Rule, name: string) {
    r.kind.DomainSuffix? && NormalizeName(r.pattern) == "" && (name == "" || HasSuffix(name, "."))
  }

  ghost predicate PlainHit(rs: seq<Rule>, name: string, hit: Option<nat>) {
    match hit
    case None => forall i :: 0 <= i < |rs| ==> !PlainMatches(rs[i], name)
    case Some(k) => k < |rs| && PlainMatches(rs[k], name) && forall i :: 0 <= i < k ==> !PlainMatches(rs[i], name)
  }

  // The answer of a first-match scan that takes every rule at its word.
  function PlainAnswer(rs: seq<Rule>, hit: Option<nat>): Action {
    if hit.Some? && hit.value < |rs| then ToAction(rs[hit.value].action)
    else if DefaultAction(rs) != "" then ToAction(DefaultAction(rs))
    else Proxy
  }

  function Without(rs: seq<Rule>, k: nat): seq<Rule>
    requires k < |rs|
  {
    rs[..k] + rs[k + 1..]
  }

  lemma {:induction false} DefaultWithout(rs: seq<Rule>, k: nat)
    requires k < |rs| && !rs[k].kind.Match?
    ensures DefaultAction(Without(rs, k)) == DefaultAction(rs)
  {
    if k == 0 {
      assert Without(rs, 0) == rs[1..];
    } else {
      DefaultWithout(rs[1..], k - 1);
      assert Without(rs, k)[1..] == Without(rs[1..], k - 1);
    }
  }

  lemma AnswerWithout(rs: seq<Rule>, name: string, k: nat)
    requires k < |rs| && !rs[k].kind.Match? && forall i :: 0 <= i <= k ==> !Matches(rs[i], name)
    ensures ActionFor(Without(rs, k), name) == ActionFor(rs, name)
  {
    hide Matches, ToAction, DefaultAction;
    DefaultWithout(rs, k);
    var rest := Without(rs, k);
    assert forall i :: 0 <= i < |rest| ==> rest[i] == if i < k then rs[i] else rs[i + 1];
    match FirstMatch(rs, name) {
      case None =>
      case Some(j) =>
        assert rest[j - 1] == rs[j];
        FirstMatchIs(rest, name, j - 1);
    }
  }

  /** A whole list is answered as it reads unless the first rule that reads as a match is a blank suffix rule the table
      passes over; then exactly when the list without that rule gives an action of the same class. */
  lemma ListHonoured(sorted: seq<Rule>, name: string, hit: Option<nat>)
    requires PlainHit(sorted, name, hit)
    ensures ActionFor(sorted, name) == PlainAnswer(sorted, hit)
            <==> (hit.Some? && Bypassed(sorted[hit.value], name) ==>
                    ToAction(sorted[hit.value].action) == ActionFor(Without(sorted, hit.value), name))
  {
    hide Matches, PlainMatches, ToAction, DefaultAction, Bypassed;
    forall i | 0 <= i < |sorted| && Matches(sorted[i], name) ensures PlainMatches(sorted[i], name) {
      MatchesPlainly(sorted[i], name);
    }
    if hit.Some? {
      SuffixRuleHonoured(sorted[hit.value], name);
      if Bypassed(sorted[hit.value], name) {
        BypassedKind(sorted[hit.value], name);
        AnswerWithout(sorted, name, hit.value);
      } else {
        FirstMatchIs(sorted, name, hit.value);
      }
    }
  }

  lemma MatchesPlainly(r: Rule, name: string)
    requires Matches(r, name)
    ensures PlainMatches(r, name)
  {
  }

  lemma BypassedKind(r: Rule, name: string)
    requires Bypassed(r, name)
    ensures !r.kind.Match? && !Matches(r, name)
  {
  }

  lemma BlankSuffixExample()
    ensures NormalizeName("a..") == "a."
    ensures var r := Rule("x", DomainSuffix, ".", "block", 0, true);
            PlainMatches(r, NormalizeName("a..")) && ActionFor(ScanOrder([r]), NormalizeName("a..")) == Proxy
  {
    var r := Rule("x", DomainSuffix, ".", "block", 0, true);
    assert TrimSpace("a..") == "a.." && Lower("a..") == "a..";
    assert TrimSpace(".") == "." && Lower(".") == ".";
    assert NormalizeName(".") == "";
    SingleScan(r);
  }

  lemma SingleScan(r: Rule)
    requires r.enabled
    ensures ScanOrder([r]) == [r]
  {
    FilterCons(r, [], (q: Rule) => q.enabled);
    assert [r] + [] == [r] && [r][..0] == [];
    assert Enabled([r]) == [r];
    assert InsertByPriority(r, StableSort([])) == [r];
  }

  function ScanOrder(rs: seq<Rule>): seq<Rule> {
    StableSort(Enabled(rs))
  }

  // ---------- labels ----------

  predicate IsLabelSuffix(name: string, p: string) {
    exists i :: 0 <= i < |SplitLabels(name)| && SplitLabels(name)[i..] == SplitLabels(p)
  }

  lemma SuffixGivesLabels(name: string, p: string)
    requires p != "" && IsDomainSuffix(name, p)
    ensures IsLabelSuffix(name, p)
  {
    var ls, ps := SplitLabels(name), SplitLabels(p);
    if name == p {
      assert ls[0..] == ps;
    } else {
      var head := name[..|name| - |p| - 1];
      assert name == head + ['.'] + p;
      SplitAt(head, '.', p);
      var i := |Split(head, '.')|;
      assert ls[i..] == ps;
    }
  }

  lemma LabelsGiveSuffix(name: string, p: string)
    requires p != "" && IsLabelSuffix(name, p)
    ensures IsDomainSuffix(name, p)
  {
    hide Split, Join;
    var ls, ps := SplitLabels(name), SplitLabels(p);
    var i :| 0 <= i < |ls| && ls[i..] == ps;
    JoinSplit(name, '.');
    JoinSplit(p, '.');
    if i == 0 {
      assert ls[0..] == ls;
    } else {
      assert ls == ls[..i] + ps;
      JoinAppend(ls[..i], ps, ".");
      var head := Join(ls[..i], ".");
      assert name == head + ("." + p);
    }
  }

  /** Comparing label suffixes is comparing domain suffixes. */
  lemma LabelSuffix(name: string, p: string)
    requires p != ""
    ensures IsDomainSuffix(name, p) <==> IsLabelSuffix(name, p)
  {
    hide SplitLabels;
    if IsDomainSuffix(name, p) {
      SuffixGivesLabels(name, p);
    }
    if IsLabelSuffix(name, p) {
      LabelsGiveSuffix(name, p);
    }
  }

  // ---------- the suffix trie ----------

  // A node stands for a suffix of labels: the root for none, a child for one label more to the left.
  datatype Path = Root | Below(head: string, rest: Path)

  function PathOf(labels: seq<string>): Path {
    if labels == [] then Root else Below(labels[0], PathOf(labels[1..]))
  }

  lemma {:induction false} PathInjective(a: seq<string>, b: seq<string>)
    requires PathOf(a) == PathOf(b)
    ensures a == b
  {
    if a != [] && b != [] {
      PathInjective(a[1..], b[1..]);
    }
  }

  lemma PathStep(labels: seq<string>, i: nat)
    requires 0 < i <= |labels|
    ensures PathOf(labels[i - 1..]) == Below(labels[i - 1], PathOf(labels[i..]))
  {
    assert labels[i - 1..][1..] == labels[i..];
  }

  predicate StoredIn(stored: map<Path, RankedAction>, labels: seq<string>, i: int) {
    0 <= i < |labels| && PathOf(labels[i..]) in stored
  }

  // best is the smallest-ranked stored suffix starting at from or later; ok says there is one.
  ghost predicate BestFrom(stored: map<Path, RankedAction>, labels: seq<string>, from: int,
                           best: RankedAction, ok: bool) {
    && (ok ==> exists i :: from <= i && StoredIn(stored, labels, i) && stored[PathOf(labels[i..])] == best)
    && (forall i :: from <= i && StoredIn(stored, labels, i) ==>
          ok && best.rank <= stored[PathOf(labels[i..])].rank)
  }

  lemma BestStep(stored: map<Path, RankedAction>, labels: seq<string>, i: nat, best: RankedAction, ok: bool)
    requires i < |labels| && BestFrom(stored, labels, i + 1, best, ok)
    ensures var here := PathOf(labels[i..]);
            if here in stored && (!ok || stored[here].rank < best.rank)
            then BestFrom(stored, labels, i, stored[here], true)
            else BestFrom(stored, labels, i, best, ok)
  {
    assert StoredIn(stored, labels, i) <==> PathOf(labels[i..]) in stored;
  }

  lemma BestStop(stored: map<Path, RankedAction>, labels: seq<string>, i: nat, best: RankedAction, ok: bool)
    requires BestFrom(stored, labels, i, best, ok)
    requires forall j :: j < i ==> !StoredIn(stored, labels, j)
    ensures BestFrom(stored, labels, 0, best, ok)
  {
  }

  class SuffixNode {
    var children: map<string, SuffixNode>
    var action: string
    var rank: nat
    var hasAction: bool
    // The path this node stands for.
    ghost const at: Path

    constructor (ghost at: Path)
      ensures children == map[] && !hasAction && this.at == at
    {
      children, action, rank, hasAction := map[], "", 0, false;
      this.at := at;
    }
  }

  class SuffixTrie {
    const root: SuffixNode
    // The node of every path in the trie, the paths that carry an action, and all nodes.
    ghost var tree: map<Path, SuffixNode>
    ghost var contents: map<Path, RankedAction>
    ghost var repr: set<SuffixNode>

    constructor ()
      ensures Valid() && contents == map[] && fresh(repr)
    {
      root := new SuffixNode(Root);
      contents := map[];
      new;
      tree, repr := map[Root := root], {root};
    }

    ghost predicate Valid()
      reads this, repr
    {
      ValidBut(Root)
    }

    // Valid, except that the node of the orphan path still waits for its parent's link.
    ghost predicate ValidBut(orphan: Path)
      reads this, repr
    {
      Placed() && Linked(orphan) && Filed()
    }

    ghost predicate Placed()
      reads this`tree, this`repr
    {
      && Root in tree && tree[Root] == root
      && (forall q :: q in tree ==> tree[q] in repr && tree[q].at == q)
      && (forall n :: n in repr ==> n.at in tree && tree[n.at] == n)
    }

    ghost predicate Linked(orphan: Path)
      requires Placed()
      reads this`tree, this`repr, repr`children
    {
      && (forall q, l :: Below(l, q) in tree ==> q in tree && (Below(l, q) != orphan ==> l in tree[q].children))
      && (forall n, l :: n in repr && l in n.children ==>
            n.children[l] in repr && n.children[l].at == Below(l, n.at))
    }

    ghost predicate Filed()
      requires Placed()
      reads this, repr`action, repr`rank, repr`hasAction
    {
      && contents.Keys <= tree.Keys
      && (forall q :: q in tree ==>
            if tree[q].hasAction
            then q in contents && contents[q] == RankedAction(tree[q].action, tree[q].rank)
            else q !in contents)
    }

    ghost method Adopt(child: SuffixNode, l: string, here: Path)
      requires Valid() && here in tree && Below(l, here) !in tree
      requires child !in repr && child.at == Below(l, here) && child.children == map[] && !child.hasAction
      modifies this`tree, this`repr
      ensures ValidBut(Below(l, here)) && tree == old(tree)[Below(l, here) := child] && repr == old(repr) + {child}
    {
      tree, repr := tree[Below(l, here) := child], repr + {child};
    }

    method Link(cur: SuffixNode, l: string, child: SuffixNode, ghost here: Path)
      requires ValidBut(Below(l, here)) && here in tree && cur == tree[here]
      requires Below(l, here) in tree && tree[Below(l, here)] == child
      modifies cur`children
      ensures Valid()
    {
      hide Filed;
      cur.children := cur.children[l := child];
    }

    // One step of the walk: the child of cur for label l, created when missing.
    method Enter(cur: SuffixNode, l: string, ghost here: Path) returns (child: SuffixNode)
      requires Valid() && here in tree && cur == tree[here]
      modifies this`tree, this`repr, cur`children
      ensures Valid()
      ensures Below(l, here) in tree && child == tree[Below(l, here)]
      ensures fresh(repr - old(repr))
    {
      if l !in cur.children {
        child := new SuffixNode(Below(l, here));
        Adopt(child, l, here);
        Link(cur, l, child, here);
      } else {
        child := cur.children[l];
      }
    }

    method Claim(cur: SuffixNode, action: string, rank: nat, ghost here: Path)
      requires Valid() && here in tree && cur == tree[here]
      modifies this`contents, cur`action, cur`rank, cur`hasAction
      ensures Valid()
      ensures contents == if here in old(contents) then old(contents)
                          else old(contents)[here := RankedAction(action, rank)]
    {
      hide Linked;
      if !cur.hasAction {
        cur.action, cur.rank, cur.hasAction := action, rank, true;
        contents := contents[here := RankedAction(action, rank)];
      }
    }

    /** Creates the missing nodes of labels, right to left; the first rule to claim a suffix keeps it. */
    method Insert(labels: seq<string>, action: string, rank: nat)
      requires Valid()
      modifies this, repr
      ensures Valid() && fresh(repr - old(repr))
      ensures contents == if PathOf(labels) in old(contents) then old(contents)
                          else old(contents)[PathOf(labels) := RankedAction(action, rank)]
    {
      var cur := root;
      var i := |labels|;
      assert labels[i..] == [];
      while i > 0
        invariant 0 <= i <= |labels|
        invariant Valid() && fresh(repr - old(repr))
        invariant PathOf(labels[i..]) in tree && cur == tree[PathOf(labels[i..])]
        invariant contents == old(contents)
      {
        PathStep(labels, i);
        cur := Enter(cur, labels[i - 1], PathOf(labels[i..]));
        i := i - 1;
      }
      assert labels[0..] == labels;
      Claim(cur, action, rank, PathOf(labels));
    }

    lemma Ancestors(labels: seq<string>, i: nat, j: nat)
      requires Valid() && i <= j <= |labels| && PathOf(labels[i..]) in tree
      ensures PathOf(labels[j..]) in tree
      decreases j - i
    {
      if i < j {
        PathStep(labels, i + 1);
        Ancestors(labels, i + 1, j);
      }
    }

    lemma NothingAbove(labels: seq<string>, i: nat)
      requires Valid() && 0 < i <= |labels|
      requires Below(labels[i - 1], PathOf(labels[i..])) !in tree
      ensures forall j :: j < i ==> !StoredIn(contents, labels, j)
    {
      PathStep(labels, i);
      forall j | 0 <= j < i ensures !StoredIn(contents, labels, j) {
        if StoredIn(contents, labels, j) {
          Ancestors(labels, j, i - 1);
        }
      }
    }

    // The child of a node is the tree's entry for the path one label longer.
    lemma ChildIs(here: Path, l: string)
      requires Valid() && here in tree
      ensures l in tree[here].children <==> Below(l, here) in tree
      ensures l in tree[here].children ==> tree[here].children[l] == tree[Below(l, here)]
    {
    }

    // What a node holds is what is stored under its path.
    lemma NodeHolds(here: Path)
      requires Valid() && here in tree
      ensures tree[here].hasAction <==> here in contents
      ensures here in contents ==> contents[here] == RankedAction(tree[here].action, tree[here].rank)
    {
    }

    // One label further to the left: the node there, and the best of it and what was found below.
    method Climb(labels: seq<string>, i: nat, cur: SuffixNode, best: RankedAction, ok: bool)
      returns (child: SuffixNode, best': RankedAction, ok': bool)
      requires Valid() && 0 < i <= |labels| && PathOf(labels[i..]) in tree && cur == tree[PathOf(labels[i..])]
      requires labels[i - 1] in cur.children && BestFrom(contents, labels, i, best, ok)
      ensures PathOf(labels[i - 1..]) in tree && child == tree[PathOf(labels[i - 1..])]
      ensures BestFrom(contents, labels, i - 1, best', ok')
    {
      PathStep(labels, i);
      ChildIs(PathOf(labels[i..]), labels[i - 1]);
      NodeHolds(PathOf(labels[i - 1..]));
      BestStep(contents, labels, i - 1, best, ok);
      hide Valid, PathOf, BestFrom, StoredIn;
      child, best', ok' := cur.children[labels[i - 1]], best, ok;
      if child.hasAction && (!ok || child.rank < best.rank) {
        best', ok' := RankedAction(child.action, child.rank), true;
      }
    }

    /** The smallest-ranked stored suffix of the labels, over every depth the walk reaches. */
    method Lookup(name: string) returns (best: RankedAction, ok: bool)
      requires Valid()
      ensures BestFrom(contents, SplitLabels(name), 0, best, ok)
    {
      var labels := SplitLabels(name);
      var cur := root;
      best, ok := RankedAction("", 0), false;
      var i := |labels|;
      assert labels[i..] == [] && PathOf(labels[i..]) == Root;
      assert BestFrom(contents, labels, i, best, ok);
      hide SplitLabels, BestFrom, StoredIn, PathOf, Valid;
      while i > 0
        invariant 0 <= i <= |labels|
        invariant PathOf(labels[i..]) in tree && cur == tree[PathOf(labels[i..])]
        invariant BestFrom(contents, labels, i, best, ok)
      {
        if labels[i - 1] !in cur.children {
          ChildIs(PathOf(labels[i..]), labels[i - 1]);
          NothingAbove(labels, i);
          BestStop(contents, labels, i, best, ok);
          return;
        }
        cur, best, ok := Climb(labels, i, cur, best, ok);
        i := i - 1;
      }
    }
  }

  // ---------- ranks: what the three structures know about the compiled rules ----------

  predicate FromRule(source: seq<Rule>, r: RankedAction) {
    r.rank < |source| && source[r.rank].action == r.action
  }

  predicate ExactRanks(source: seq<Rule>, exact: map<string, RankedAction>) {
    && (forall n :: n in exact ==>
          FromRule(source, exact[n]) && source[exact[n].rank].kind.Domain?
          && NormalizeName(source[exact[n].rank].pattern) == n)
    && (forall i :: 0 <= i < |source| && source[i].kind.Domain? ==>
          NormalizeName(source[i].pattern) in exact && exact[NormalizeName(source[i].pattern)].rank <= i)
  }

  function SuffixPath(r: Rule): Path {
    PathOf(SplitLabels(NormalizeName(r.pattern)))
  }

  predicate SuffixRanks(source: seq<Rule>, stored: map<Path, RankedAction>) {
    && (forall q :: q in stored ==>
          FromRule(source, stored[q]) && source[stored[q].rank].kind.DomainSuffix?
          && SuffixPath(source[stored[q].rank]) == q)
    && (forall i :: 0 <= i < |source| && source[i].kind.DomainSuffix? ==>
          SuffixPath(source[i]) in stored && stored[SuffixPath(source[i])].rank <= i)
  }

  predicate KeywordAt(source: seq<Rule>, kw: KeywordRule) {
    && FromRule(source, RankedAction(kw.action, kw.rank)) && source[kw.rank].kind.DomainKeyword?
    && kw.keyword == Lower(source[kw.rank].pattern)
  }

  predicate KeywordRanks(source: seq<Rule>, keywords: seq<KeywordRule>) {
    && (forall k :: 0 <= k < |keywords| ==> KeywordAt(source, keywords[k]))
    && (forall k, l :: 0 <= k < l < |keywords| ==> keywords[k].rank < keywords[l].rank)
    && (forall i :: 0 <= i < |source| && source[i].kind.DomainKeyword? ==>
          exists k :: 0 <= k < |keywords| && keywords[k].rank == i)
  }

  lemma ExactAppend(source: seq<Rule>, exact: map<string, RankedAction>, r: Rule)
    requires ExactRanks(source, exact)
    ensures ExactRanks(source + [r],
                       if r.kind.Domain? && NormalizeName(r.pattern) !in exact
                       then exact[NormalizeName(r.pattern) := RankedAction(r.action, |source|)] else exact)
  {
    hide NormalizeName, SplitLabels, PathOf;
  }

  lemma SuffixAppend(source: seq<Rule>, stored: map<Path, RankedAction>, r: Rule)
    requires SuffixRanks(source, stored)
    ensures SuffixRanks(source + [r],
                        if r.kind.DomainSuffix? && SuffixPath(r) !in stored
                        then stored[SuffixPath(r) := RankedAction(r.action, |source|)] else stored)
  {
    hide NormalizeName, SplitLabels, PathOf;
  }

  lemma KeywordAppend(source: seq<Rule>, keywords: seq<KeywordRule>, r: Rule)
    requires KeywordRanks(source, keywords)
    ensures KeywordRanks(source + [r],
                         if r.kind.DomainKeyword?
                         then keywords + [KeywordRule(Lower(r.pattern), r.action, |source|)] else keywords)
  {
    var kws := if r.kind.DomainKeyword?
               then keywords + [KeywordRule(Lower(r.pattern), r.action, |source|)] else keywords;
    forall k | 0 <= k < |kws| ensures KeywordAt(source + [r], kws[k]) {
      if k < |keywords| {
        assert KeywordAt(source, keywords[k]);
      }
    }
    forall i | 0 <= i < |source + [r]| && (source + [r])[i].kind.DomainKeyword?
      ensures exists k :: 0 <= k < |kws| && kws[k].rank == i
    {
      if i < |source| {
        var k :| 0 <= k < |keywords| && keywords[k].rank == i;
        assert kws[k].rank == i;
      } else {
        assert kws[|keywords|].rank == i;
      }
    }
  }

  /** A stored suffix of the name belongs to a matching rule ... */
  lemma StoredSuffixMatches(source: seq<Rule>, stored: map<Path, RankedAction>, name: string, i: int)
    requires SuffixRanks(source, stored) && StoredIn(stored, SplitLabels(name), i)
    ensures Matches(source[stored[PathOf(SplitLabels(name)[i..])].rank], name)
  {
    var labels := SplitLabels(name);
    var p := NormalizeName(source[stored[PathOf(labels[i..])].rank].pattern);
    PathInjective(SplitLabels(p), labels[i..]);
    LabelSuffix(name, p);
  }

  /** ... and every matching suffix rule is stored, under a rank no larger than its own. */
  lemma MatchingSuffixStored(source: seq<Rule>, stored: map<Path, RankedAction>, name: string, k: nat)
      returns (i: nat)
    requires SuffixRanks(source, stored)
    requires k < |source| && source[k].kind.DomainSuffix? && Matches(source[k], name)
    ensures StoredIn(stored, SplitLabels(name), i) && stored[PathOf(SplitLabels(name)[i..])].rank <= k
  {
    hide NormalizeName, SplitLabels, PathOf, Contains, FromRule;
    var p := NormalizeName(source[k].pattern);
    LabelSuffix(name, p);
    i :| 0 <= i < |SplitLabels(name)| && SplitLabels(name)[i..] == SplitLabels(p);
  }

  // ---------- the table ----------

  class RuleTable {
    var exact: map<string, RankedAction>
    var suffix: SuffixTrie
    var keywords: seq<KeywordRule>
    var defaultAction: string
    // The sorted rules compiled so far; a rule's rank is its position here.
    ghost var source: seq<Rule>

    constructor ()
      ensures Valid() && fresh(suffix) && fresh(suffix.repr)
      ensures source == []
    {
      hide SuffixTrie.Valid;
      exact, keywords, defaultAction := map[], [], "";
      suffix := new SuffixTrie();
      source := [];
    }

    ghost predicate Valid()
      reads this, suffix, suffix.repr
    {
      && suffix.Valid()
      && ExactRanks(source, exact) && SuffixRanks(source, suffix.contents) && KeywordRanks(source, keywords)
      && defaultAction == DefaultAction(source)
    }

    /** compileRule: files r under its kind with the next rank. */
    method CompileRule(r: Rule, rank: nat)
      requires Valid() && rank == |source|
      modifies this, suffix, suffix.repr
      ensures Valid() && source == old(source) + [r]
      ensures suffix == old(suffix) && fresh(suffix.repr - old(suffix.repr))
    {
      hide NormalizeName, SplitLabels, PathOf, DefaultAction, ExactRanks, SuffixRanks, KeywordRanks, SuffixTrie.Valid;
      DefaultAppend(source, r);
      ExactAppend(source, exact, r);
      SuffixAppend(source, suffix.contents, r);
      KeywordAppend(source, keywords, r);
      source := source + [r];
      match r.kind {
        case Domain =>
          var name := NormalizeName(r.pattern);
          if name !in exact {
            exact := exact[name := RankedAction(r.action, rank)];
          }
        case DomainSuffix =>
          suffix.Insert(SplitLabels(NormalizeName(r.pattern)), r.action, rank);
        case DomainKeyword =>
          keywords := keywords + [KeywordRule(Lower(r.pattern), r.action, rank)];
        case Match =>
          if defaultAction == "" {
            defaultAction := r.action;
          }
        case _ =>
      }
    }

    // The best of the exact entry and the suffix walk.
    method BestByLabels(name: string) returns (best: RankedAction, matched: bool)
      requires Valid()
      ensures matched ==> FromRule(source, best) && Matches(source[best.rank], name)
      ensures forall i :: 0 <= i < |source| && !source[i].kind.DomainKeyword? && Matches(source[i], name) ==>
                matched && best.rank <= i
    {
      hide NormalizeName, SplitLabels, PathOf, SuffixTrie.Valid, KeywordRanks, DefaultAction;
      best, matched := RankedAction("", 0), false;
      if name in exact {
        best, matched := exact[name], true;
      }
      var sfx, ok := suffix.Lookup(name);
      if ok {
        ghost var i :| StoredIn(suffix.contents, SplitLabels(name), i)
                       && suffix.contents[PathOf(SplitLabels(name)[i..])] == sfx;
        StoredSuffixMatches(source, suffix.contents, name, i);
      }
      forall k | 0 <= k < |source| && source[k].kind.DomainSuffix? && Matches(source[k], name)
        ensures ok && sfx.rank <= k
      {
        var i := MatchingSuffixStored(source, suffix.contents, name, k);
        assert StoredIn(suffix.contents, SplitLabels(name), i);
      }
      if ok && (!matched || sfx.rank < best.rank) {
        best, matched := sfx, true;
      }
    }

    /** classify: the candidate of smallest rank among the three structures, else MATCH, else proxy. */
    method Classify(qname: string) returns (result: Action)
      requires Valid()
      ensures result == ActionFor(source, NormalizeName(qname))
    {
      hide NormalizeName, SuffixTrie.Valid, ExactRanks, SuffixRanks, DefaultAction, ToAction;
      var name := NormalizeName(qname);
      var best, matched := BestByLabels(name);
      ghost var best0, matched0 := best, matched;
      ghost var k := 0;
      for i := 0 to |keywords|
        invariant best == best0 && matched == matched0 && k == i
        invariant forall l :: 0 <= l < i ==> !Contains(name, keywords[l].keyword)
      {
        var kw := keywords[i];
        if Contains(name, kw.keyword) {
          assert KeywordAt(source, kw);
          if !matched || kw.rank < best.rank {
            best, matched := RankedAction(kw.action, kw.rank), true;
          }
          break;
        }
        k := i + 1;
      }
      forall i | 0 <= i < |source| && Matches(source[i], name) ensures matched && best.rank <= i {
        if source[i].kind.DomainKeyword? {
          var l :| 0 <= l < |keywords| && keywords[l].rank == i;
          assert KeywordAt(source, keywords[l]);
          assert k <= l;
        }
      }
      if matched {
        FirstMatchIs(source, name, best.rank);
        return ToAction(best.action);
      }
      if defaultAction != "" {
        return ToAction(defaultAction);
      }
      return Proxy;
    }
  }

  lemma {:induction false} DefaultAppend(rs: seq<Rule>, r: Rule)
    ensures DefaultAction(rs + [r]) ==
            if DefaultAction(rs) != "" then DefaultAction(rs)
            else if r.kind.Match? then r.action else ""
  {
    if rs != [] {
      assert (rs + [r])[1..] == rs[1..] + [r];
      DefaultAppend(rs[1..], r);
    } else {
      assert rs + [r] == [r] && [r][1..] == [];
    }
  }

  method DropDisabled(rs: seq<Rule>) returns (enabled: seq<Rule>)
    ensures enabled == Enabled(rs)
  {
    enabled := [];
    for i := 0 to |rs|
      invariant enabled == Enabled(rs[..i])
    {
      assert rs[..i + 1] == rs[..i] + [rs[i]];
      FilterAppend(rs[..i], [rs[i]], (r: Rule) => r.enabled);
      FilterCons(rs[i], [], (r: Rule) => r.enabled);
      assert [rs[i]] + [] == [rs[i]];
      if rs[i].enabled {
        enabled := enabled + [rs[i]];
      }
    }
    assert rs[..|rs|] == rs;
  }

  method CompileAll(t: RuleTable, sorted: seq<Rule>)
    requires t.Valid() && t.source == []
    modifies t, t.suffix, t.suffix.repr
    ensures t.Valid() && t.source == sorted
  {
    hide RuleTable.Valid;
    for rank := 0 to |sorted|
      invariant t.Valid() && t.suffix == old(t.suffix) && fresh(t.suffix.repr - old(t.suffix.repr))
      invariant t.source == sorted[..rank]
    {
      t.CompileRule(sorted[rank], rank);
      assert sorted[..rank + 1] == sorted[..rank] + [sorted[rank]];
    }
    assert sorted[..|sorted|] == sorted;
  }

  /** BuildTable: drop disabled rules, sort stably by priority, compile in that order. */
  method BuildTable(rs: seq<Rule>) returns (t: RuleTable)
    ensures fresh(t) && t.Valid()
    ensures t.source == ScanOrder(rs)
  {
    hide StableSort, RuleTable.Valid;
    var enabled := DropDisabled(rs);
    t := new RuleTable();
    CompileAll(t, StableSort(enabled));
  }
}
