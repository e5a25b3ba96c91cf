/** What the parser of compound rule lines makes of any line at all, well formed or not. */
module LogicalGrammar {
  import opened Text
  import opened Logical

  // ---------- parentheses ----------

  lemma {:induction false} NetSplit(s: string, k: nat)
    requires k <= |s|
    ensures Net(s) == Net(s[..k]) + Net(s[k..])
    decreases |s|
  {
    if k == |s| {
      assert s[..k] == s;
    } else {
      NetSplit(s[..|s| - 1], k);
      assert s[..|s| - 1][..k] == s[..k] && s[..|s| - 1][k..] == s[k..][..|s| - k - 1];
    }
  }

  lemma NetOfSlice(s: string, a: nat, j: nat)
    requires a <= j < |s|
    ensures Net(s[a..j + 1]) == Net(s[a..j]) + Step(s[j])
  {
    assert s[a..j + 1][..j - a] == s[a..j];
  }

  // The parenthesis at i closes at end.
  predicate ClosesAt(s: string, i: nat, end: nat) {
    i < end < |s| && s[i] == '(' && s[end] == ')' && Balanced(s[i + 1..end])
  }

  // s[a..j] has not closed more than it has opened.
  predicate OpenTo(s: string, a: nat, j: nat) {
    a <= j <= |s| && forall k :: a <= k <= j ==> Net(s[a..k]) >= 0
  }

  lemma {:induction false} CloseRead(s: string, a: nat, j: nat)
    requires OpenTo(s, a, j)
    ensures var end := CloseFrom(s, j, 1 + Net(s[a..j]));
            match end
            case Some(e) => Balanced(s[a..e])
            case None => OpenTo(s, a, |s|)
    decreases |s| - j
  {
    if j < |s| {
      NetOfSlice(s, a, j);
      if s[j] == ')' && Net(s[a..j]) == 0 {
        assert forall k :: 0 <= k <= j - a ==> s[a..j][..k] == s[a..a + k];
      } else {
        CloseRead(s, a, j + 1);
      }
    }
  }

  lemma CloseExactly(s: string, i: nat, end: nat)
    requires i < |s| && s[i] == '('
    ensures CloseFrom(s, i, 0) == Some(end) <==> ClosesAt(s, i, end)
  {
    assert s[i + 1..i + 1] == "";
    CloseRead(s, i + 1, i + 1);
    if ClosesAt(s, i, end) {
      var m := s[i + 1..end];
      ClosePass(s, i + 1, m, |m|, 1);
      assert m[..|m|] == m;
    }
  }

  // ---------- the groups ----------

  // Text without parentheses, and members in parentheses between it.
  datatype Top = End(text: string) | Part(text: string, member: string, more: Top)

  predicate Flat(text: string) {
    '(' !in text && ')' !in text
  }

  predicate FitsTop(top: Top) {
    match top
    case End(text) => Flat(text)
    case Part(text, member, more) => Flat(text) && Balanced(member) && FitsTop(more)
  }

  function PrintTop(top: Top): string {
    match top
    case End(text) => text
    case Part(text, member, more) => text + ("(" + member + ")" + PrintTop(more))
  }

  function MembersOf(top: Top): seq<string> {
    match top
    case End(_) => []
    case Part(_, member, more) => [member] + MembersOf(more)
  }

  lemma {:induction false} FlatPass(s: string, a: nat, text: string, k: nat)
    requires At(s, a, text) && Flat(text) && k <= |text|
    ensures GroupsFrom(s, a, 0, -1) == GroupsFrom(s, a + k, 0, -1)
  {
    if k > 0 {
      FlatPass(s, a, text, k - 1);
      assert s[a + (k - 1)] == text[k - 1] && text[k - 1] in text;
    }
  }

  lemma {:induction false} TopPrinted(s: string, a: nat, top: Top)
    requires At(s, a, PrintTop(top)) && a + |PrintTop(top)| == |s| && FitsTop(top)
    ensures GroupsFrom(s, a, 0, -1) == MembersOf(top)
    decreases top
  {
    hide Balanced, At;
    match top {
      case End(text) => FlatPass(s, a, text, |text|);
      case Part(text, member, more) =>
        var part := "(" + member + ")";
        AtParts(s, a, text, part + PrintTop(more));
        AtParts(s, a + |text|, part, PrintTop(more));
        FlatPass(s, a, text, |text|);
        MemberGroup(s, a + |text|, member);
        TopPrinted(s, a + |text| + |part|, more);
    }
  }

  lemma {:induction false} FlatNet(text: string)
    requires Flat(text)
    ensures Net(text) == 0
  {
    if text != "" {
      var n := |text| - 1;
      assert text == text[..n] + [text[n]];
      FlatNet(text[..n]);
    }
  }

  // What is left of a balanced text behind a balanced part of it is balanced.
  lemma BalancedBehind(s: string, k: nat)
    requires Balanced(s) && k <= |s| && Net(s[..k]) == 0
    ensures Balanced(s[k..])
  {
    NetSplit(s, k);
    forall j | 0 <= j <= |s| - k ensures Net(s[k..][..j]) >= 0 {
      var t := s[..k + j];
      NetSplit(t, k);
      assert t[..k] == s[..k] && t[k..] == s[k..][..j];
    }
  }

  // Up to the first opening parenthesis nothing closes.
  lemma {:induction false} FlatBefore(s: string, i: nat)
    requires Balanced(s) && i <= |s| && forall j :: 0 <= j < i ==> s[j] != '('
    ensures Flat(s[..i])
  {
    if i > 0 {
      FlatBefore(s, i - 1);
      assert s[..i] == s[..i - 1] + [s[i - 1]];
      FlatNet(s[..i - 1]);
      NetStep(s, i - 1);
    }
  }

  lemma FirstPart(s: string, i: nat) returns (end: nat)
    requires Balanced(s) && i < |s| && s[i] == '(' && Flat(s[..i])
    ensures i < end < |s| && s[end] == ')' && Balanced(s[i + 1..end]) && Balanced(s[end + 1..])
  {
    FlatNet(s[..i]);
    NetStep(s, i);
    assert s[i + 1..i + 1] == "";
    CloseRead(s, i + 1, i + 1);
    NetSplit(s, i + 1);
    assert s[i + 1..|s|] == s[i + 1..];
    assert CloseFrom(s, i, 0).Some?;
    end := CloseFrom(s, i, 0).value;
    CloseExactly(s, i, end);
    NetOfSlice(s, 0, end);
    NetSplit(s[..end], i + 1);
    assert s[..end][..i + 1] == s[..i + 1] && s[..end][i + 1..] == s[i + 1..end] && s[0..end] == s[..end];
    assert s[0..end + 1] == s[..end + 1];
    BalancedBehind(s, end + 1);
  }

  /** Every balanced text is printed from such parts. */
  lemma {:induction false} TopRead(s: string) returns (top: Top)
    requires Balanced(s)
    ensures FitsTop(top) && PrintTop(top) == s
    decreases |s|
  {
    hide Balanced, Flat, CloseFrom;
    match IndexFrom(s, '(', 0) {
      case None =>
        FlatBefore(s, |s|);
        assert s[..|s|] == s;
        top := End(s);
      case Some(i) =>
        FlatBefore(s, i);
        var end := FirstPart(s, i);
        var more := TopRead(s[end + 1..]);
        top := Part(s[..i], s[i + 1..end], more);
        assert s == s[..i] + ("(" + s[i + 1..end] + ")" + s[end + 1..]);
    }
  }

  ghost predicate GroupsSay(group: string, members: seq<string>) {
    exists top :: FitsTop(top) && PrintTop(top) == group && members == MembersOf(top)
  }

  lemma GroupsExactly(group: string, members: seq<string>)
    requires Balanced(group)
    ensures GroupsFrom(group, 0, 0, -1) == members <==> GroupsSay(group, members)
  {
    hide Balanced;
    var top := TopRead(group);
    WholeAt(group);
    TopPrinted(group, 0, top);
    if GroupsSay(group, members) {
      var other :| FitsTop(other) && PrintTop(other) == group && members == MembersOf(other);
      TopPrinted(group, 0, other);
    }
  }

  // ---------- the policy ----------

  // The first field behind the commas, if anything is there.
  ghost predicate PolicySays(tail: string, policy: string) {
    exists n: nat :: PolicyAt(tail, n, policy)
  }

  ghost predicate PolicyAt(tail: string, n: nat, policy: string) {
    && n <= |tail| && (forall i :: 0 <= i < n ==> tail[i] == ',')
    && if n == |tail| then policy == ""
       else tail[n] != ',' && exists fields :: Logical.Fits(fields) && PrintFields(fields) == tail[n..] && policy == Texts(fields)[0]
  }

  lemma {:induction false} CommasGone(tail: string, n: nat)
    requires n <= |tail| && (forall i :: 0 <= i < n ==> tail[i] == ',') && (n < |tail| ==> tail[n] != ',')
    ensures TrimLeftCommas(tail) == tail[n..]
  {
    if n > 0 {
      CommasGone(tail[1..], n - 1);
    }
  }

  lemma {:induction false} CommasEnd(tail: string) returns (n: nat)
    ensures n <= |tail| && (forall i :: 0 <= i < n ==> tail[i] == ',') && (n < |tail| ==> tail[n] != ',')
  {
    n := 0;
    if tail != "" && tail[0] == ',' {
      var more := CommasEnd(tail[1..]);
      n := more + 1;
    }
  }

  function PolicyOf(tail: string): string {
    var rest := TrimLeftCommas(tail);
    if rest == "" then "" else CsvFrom(rest, 0, "", false)[0]
  }

  lemma PolicyExactly(tail: string, policy: string)
    ensures PolicyOf(tail) == policy <==> PolicySays(tail, policy)
  {
    hide CsvFrom, PrintFields;
    var n := CommasEnd(tail);
    CommasGone(tail, n);
    var fields := EveryTextPrinted(tail[n..]);
    CsvPrinted(fields);
    if PolicyOf(tail) == policy {
      assert PolicyAt(tail, n, policy);
    }
    if PolicySays(tail, policy) {
      var m: nat :| PolicyAt(tail, m, policy);
      CommasGone(tail, m);
      if m < |tail| {
        var other :| Logical.Fits(other) && PrintFields(other) == tail[m..] && policy == Texts(other)[0];
        CsvPrinted(other);
      }
    }
  }

  // ---------- the line ----------

  predicate FirstOpen(line: string, i: nat) {
    i < |line| && line[i] == '(' && forall j :: 0 <= j < i ==> line[j] != '('
  }

  // The first parenthesis of the line and the one that closes it.
  predicate Spans(line: string, i: nat, end: nat) {
    FirstOpen(line, i) && ClosesAt(line, i, end)
  }

  ghost predicate Reads(line: string, c: Compound) {
    if exists i: nat, end: nat :: Spans(line, i, end) then
      exists i: nat, end: nat ::
        Spans(line, i, end) && GroupsSay(line[i + 1..end], c.members) && PolicySays(line[end + 1..], c.policy)
    else c == Compound([], "")
  }

  /** On any line: nothing if its first parenthesis never closes; otherwise the members are the parenthesised parts
      between it and its partner, and the policy is the first field behind, commas before it and quotes gone. */
  lemma ParseExactly(line: string, c: Compound)
    ensures Parse(line) == c <==> Reads(line, c)
  {
    hide GroupsFrom, CloseFrom, CsvFrom, TrimLeftCommas, Balanced, GroupsSay, PolicySays;
    match IndexFrom(line, '(', 0) {
      case None =>
      case Some(i) =>
        forall j: nat, end: nat ensures Spans(line, j, end) <==> j == i && CloseFrom(line, i, 0) == Some(end) {
          CloseExactly(line, i, end);
        }
        match CloseFrom(line, i, 0) {
          case None =>
          case Some(end) =>
            assert Spans(line, i, end);
            GroupsExactly(line[i + 1..end], c.members);
            PolicyExactly(line[end + 1..], c.policy);
        }
    }
  }
}
