/** Compound rule lines of the legacy format, "AND,((member),(member)),POLICY": the parser against a printer. */
module Logical {
  import opened Text

  // ---------- csvSplit ----------

  // The fields from i on, with cur already collected for the first.
  function CsvFrom(s: string, i: nat, cur: string, inQ: bool): (out: seq<string>)
    requires i <= |s|
    ensures out != []
    decreases |s| - i
  {
    if i == |s| then [TrimSpace(cur)]
    else if s[i] == '"' then CsvFrom(s, i + 1, cur, !inQ)
    else if s[i] == ',' && !inQ then [TrimSpace(cur)] + CsvFrom(s, i + 1, "", inQ)
    else CsvFrom(s, i + 1, cur + [s[i]], inQ)
  }

  method CsvSplit(s: string) returns (out: seq<string>)
    ensures out == CsvFrom(s, 0, "", false)
  {
    out := [];
    var cur, inQ := "", false;
    for i := 0 to |s|
      invariant out + CsvFrom(s, i, cur, inQ) == CsvFrom(s, 0, "", false)
    {
      if s[i] == '"' {
        inQ := !inQ;
      } else if s[i] == ',' && !inQ {
        assert out + ([TrimSpace(cur)] + CsvFrom(s, i + 1, "", inQ)) == out + [TrimSpace(cur)] + CsvFrom(s, i + 1, "", inQ);
        out := out + [TrimSpace(cur)];
        cur := "";
      } else {
        cur := cur + [s[i]];
      }
    }
    out := out + [TrimSpace(cur)];
  }

  // The first c at or after i.
  function IndexFrom(s: string, c: char, i: nat): (r: Option<nat>)
    requires i <= |s|
    ensures r.Some? ==> i <= r.value < |s| && s[r.value] == c && forall k :: i <= k < r.value ==> s[k] != c
    ensures r.None? ==> forall k :: i <= k < |s| ==> s[k] != c
    decreases |s| - i
  {
    if i == |s| then None else if s[i] == c then Some(i) else IndexFrom(s, c, i + 1)
  }

  // ---------- a printer of quoted fields ----------

  // A field is a run of plain and quoted stretches; the last one may end in a quote that is never closed.
  datatype Segment = Plain(text: string) | Quoted(text: string)
  datatype Fields = Next(field: seq<Segment>, more: Fields) | Last(field: seq<Segment>, open: Option<string>)

  predicate FitsSegment(g: Segment) {
    '"' !in g.text && (g.Plain? ==> ',' !in g.text)
  }

  predicate FitsField(field: seq<Segment>) {
    forall i :: 0 <= i < |field| ==> FitsSegment(field[i])
  }

  predicate Fits(fields: Fields) {
    match fields
    case Next(field, more) => FitsField(field) && Fits(more)
    case Last(field, open) => FitsField(field) && (open.Some? ==> '"' !in open.value)
  }

  function PrintSegment(g: Segment): string {
    match g
    case Plain(text) => text
    case Quoted(text) => "\"" + text + "\""
  }

  function PrintField(field: seq<Segment>): string {
    if field == [] then "" else PrintSegment(field[0]) + PrintField(field[1..])
  }

  function TextOf(field: seq<Segment>): string {
    if field == [] then "" else field[0].text + TextOf(field[1..])
  }

  function PrintOpen(open: Option<string>): string {
    if open.Some? then "\"" + open.value else ""
  }

  function OpenText(open: Option<string>): string {
    if open.Some? then open.value else ""
  }

  function Behind(fields: Fields): string
    decreases fields, 0
  {
    match fields
    case Next(_, more) => "," + PrintFields(more)
    case Last(_, open) => PrintOpen(open)
  }

  function PrintFields(fields: Fields): string
    decreases fields, 1
  {
    PrintField(fields.field) + Behind(fields)
  }

  // What the fields say: quotes gone, stretches joined, outer space trimmed.
  function Texts(fields: Fields): seq<string> {
    match fields
    case Next(field, more) => [TrimSpace(TextOf(field))] + Texts(more)
    case Last(field, open) => [TrimSpace(TextOf(field) + OpenText(open))]
  }

  // m stands in s at a.
  predicate At(s: string, a: nat, m: string) {
    a + |m| <= |s| && forall i :: 0 <= i < |m| ==> s[a + i] == m[i]
  }

  lemma AtParts(s: string, a: nat, x: string, y: string)
    requires At(s, a, x + y)
    ensures At(s, a, x) && At(s, a + |x|, y)
  {
    assert forall i :: 0 <= i < |x| ==> (x + y)[i] == x[i];
    forall i | 0 <= i < |y| ensures s[a + |x| + i] == y[i] {
      assert (x + y)[|x| + i] == y[i];
      assert s[a + (|x| + i)] == y[i];
    }
  }

  lemma {:induction false} CsvPass(s: string, a: nat, m: string, cur: string, inQ: bool)
    requires At(s, a, m) && '"' !in m && (inQ || ',' !in m)
    ensures CsvFrom(s, a, cur, inQ) == CsvFrom(s, a + |m|, cur + m, inQ)
    decreases |m|
  {
    if m == "" {
      assert cur + m == cur;
    } else {
      assert m == [m[0]] + m[1..];
      AtParts(s, a, [m[0]], m[1..]);
      assert s[a + 0] == m[0] && m[0] in m;
      assert cur + [m[0]] + m[1..] == cur + m;
      CsvPass(s, a + 1, m[1..], cur + [m[0]], inQ);
    }
  }

  lemma QuoteAt(s: string, a: nat, cur: string, inQ: bool)
    requires At(s, a, "\"")
    ensures CsvFrom(s, a, cur, inQ) == CsvFrom(s, a + 1, cur, !inQ)
  {
    assert s[a + 0] == "\""[0];
  }

  lemma SegmentPass(s: string, a: nat, g: Segment, cur: string)
    requires At(s, a, PrintSegment(g)) && FitsSegment(g)
    ensures CsvFrom(s, a, cur, false) == CsvFrom(s, a + |PrintSegment(g)|, cur + g.text, false)
  {
    if g.Plain? {
      CsvPass(s, a, g.text, cur, false);
    } else {
      AtParts(s, a, "\"" + g.text, "\"");
      AtParts(s, a, "\"", g.text);
      hide At;
      QuoteAt(s, a, cur, false);
      CsvPass(s, a + 1, g.text, cur, true);
      QuoteAt(s, a + 1 + |g.text|, cur + g.text, true);
    }
  }

  lemma {:induction false} FieldPass(s: string, a: nat, field: seq<Segment>, cur: string)
    requires At(s, a, PrintField(field)) && FitsField(field)
    ensures CsvFrom(s, a, cur, false) == CsvFrom(s, a + |PrintField(field)|, cur + TextOf(field), false)
    decreases |field|
  {
    hide CsvFrom, PrintSegment, FitsSegment;
    if field == [] {
      assert cur + "" == cur;
    } else {
      AtParts(s, a, PrintSegment(field[0]), PrintField(field[1..]));
      SegmentPass(s, a, field[0], cur);
      FieldPass(s, a + |PrintSegment(field[0])|, field[1..], cur + field[0].text);
      assert cur + field[0].text + TextOf(field[1..]) == cur + TextOf(field);
    }
  }

  // m is what s holds from a on.
  predicate Ends(s: string, a: nat, m: string) {
    At(s, a, m) && a + |m| == |s|
  }

  lemma EndsParts(s: string, a: nat, x: string, y: string)
    requires Ends(s, a, x + y)
    ensures At(s, a, x) && Ends(s, a + |x|, y)
  {
    AtParts(s, a, x, y);
  }

  lemma OpenPass(s: string, a: nat, open: Option<string>, cur: string)
    requires Ends(s, a, PrintOpen(open)) && (open.Some? ==> '"' !in open.value)
    ensures CsvFrom(s, a, cur, false) == [TrimSpace(cur + OpenText(open))]
  {
    if open.Some? {
      AtParts(s, a, "\"", open.value);
      QuoteAt(s, a, cur, false);
      CsvPass(s, a + 1, open.value, cur, true);
    } else {
      assert cur + "" == cur;
    }
  }

  lemma CommaAt(s: string, a: nat)
    requires At(s, a, ",")
    ensures a < |s| && s[a] == ','
  {
    assert s[a + 0] == ","[0];
  }

  lemma CommaStep(s: string, a: nat, cur: string)
    requires At(s, a, ",")
    ensures CsvFrom(s, a, cur, false) == [TrimSpace(cur)] + CsvFrom(s, a + 1, "", false)
  {
    CommaAt(s, a);
  }

  lemma WholeField(s: string, a: nat, field: seq<Segment>, behind: string)
    requires Ends(s, a, PrintField(field) + behind) && FitsField(field)
    ensures Ends(s, a + |PrintField(field)|, behind)
    ensures CsvFrom(s, a, "", false) == CsvFrom(s, a + |PrintField(field)|, TextOf(field), false)
  {
    EndsParts(s, a, PrintField(field), behind);
    FieldPass(s, a, field, "");
    assert "" + TextOf(field) == TextOf(field);
  }

  lemma {:induction false} FieldsFrom(s: string, a: nat, fields: Fields)
    requires Fits(fields) && Ends(s, a, PrintFields(fields))
    ensures CsvFrom(s, a, "", false) == Texts(fields)
    decreases fields
  {
    hide FitsField, Ends, At, PrintField, TextOf, TrimSpace, CsvFrom;
    var b := a + |PrintField(fields.field)|;
    WholeField(s, a, fields.field, Behind(fields));
    match fields {
      case Next(field, more) =>
        EndsParts(s, b, ",", PrintFields(more));
        CommaStep(s, b, TextOf(field));
        FieldsFrom(s, b + 1, more);
      case Last(field, open) =>
        OpenPass(s, b, open, TextOf(field));
    }
  }

  /** Splitting recovers what any printed fields say: commas inside quotes do not separate, quotes themselves vanish. */
  lemma CsvPrinted(fields: Fields)
    requires Fits(fields)
    ensures CsvFrom(PrintFields(fields), 0, "", false) == Texts(fields)
  {
    FieldsFrom(PrintFields(fields), 0, fields);
  }

  function Grown(g: Segment, fields: Fields): Fields {
    fields.(field := [g] + fields.field)
  }

  lemma GrownFits(g: Segment, fields: Fields)
    requires Fits(fields) && FitsSegment(g)
    ensures Fits(Grown(g, fields))
  {
  }

  lemma GrownPrints(g: Segment, fields: Fields)
    ensures PrintFields(Grown(g, fields)) == PrintSegment(g) + PrintFields(fields)
  {
    assert ([g] + fields.field)[1..] == fields.field;
    assert Behind(Grown(g, fields)) == Behind(fields);
    hide PrintSegment, Behind;
    Regroup(PrintSegment(g), PrintField(fields.field), Behind(fields));
  }

  lemma Regroup(a: string, b: string, c: string)
    ensures a + b + c == a + (b + c)
  {
  }

  /** Every text is printed from some fields, so the two lemmas together say what every text splits into. */
  lemma {:induction false} EveryTextPrinted(s: string) returns (fields: Fields)
    ensures Fits(fields) && PrintFields(fields) == s
    decreases |s|
  {
    if s == "" || (s[0] == '"' && IndexFrom(s, '"', 1).None?) {
      fields := Last([], if s == "" then None else Some(s[1..]));
      assert s != "" ==> s == "\"" + s[1..];
    } else if s[0] == ',' {
      fields := EveryTextPrinted(s[1..]);
      fields := Next([], fields);
      assert s == "," + s[1..];
    } else {
      var g := FirstSegment(s);
      fields := EveryTextPrinted(s[|PrintSegment(g)|..]);
      GrownFits(g, fields);
      GrownPrints(g, fields);
      fields := Grown(g, fields);
    }
  }

  lemma FirstSegment(s: string) returns (g: Segment)
    requires s != "" && s[0] != ',' && (s[0] == '"' ==> IndexFrom(s, '"', 1).Some?)
    ensures FitsSegment(g) && 0 < |PrintSegment(g)| <= |s|
    ensures PrintSegment(g) + s[|PrintSegment(g)|..] == s
  {
    if s[0] == '"' {
      var j := IndexFrom(s, '"', 1).value;
      g := Quoted(s[1..j]);
      assert PrintSegment(g) == s[..j + 1];
    } else {
      g := Plain([s[0]]);
    }
  }

  // ---------- splitTopParens ----------

  // The groups completed from i on; start is behind the parenthesis that opened the current one, or -1.
  function GroupsFrom(s: string, i: nat, depth: int, start: int): seq<string>
    requires i <= |s| && start <= i
    decreases |s| - i
  {
    if i == |s| then []
    else if s[i] == '(' then GroupsFrom(s, i + 1, depth + 1, if depth == 0 then i + 1 else start)
    else if s[i] == ')' then
      if depth - 1 == 0 && start >= 0 then [s[start..i]] + GroupsFrom(s, i + 1, depth - 1, -1)
      else GroupsFrom(s, i + 1, depth - 1, start)
    else GroupsFrom(s, i + 1, depth, start)
  }

  method SplitTopParens(s: string) returns (out: seq<string>)
    ensures out == GroupsFrom(s, 0, 0, -1)
  {
    out := [];
    var depth, start := 0, -1;
    for i := 0 to |s|
      invariant start <= i
      invariant out + GroupsFrom(s, i, depth, start) == GroupsFrom(s, 0, 0, -1)
    {
      if s[i] == '(' {
        if depth == 0 {
          start := i + 1;
        }
        depth := depth + 1;
      } else if s[i] == ')' {
        depth := depth - 1;
        if depth == 0 && start >= 0 {
          assert out + ([s[start..i]] + GroupsFrom(s, i + 1, 0, -1)) == out + [s[start..i]] + GroupsFrom(s, i + 1, 0, -1);
          out := out + [s[start..i]];
          start := -1;
        }
      }
    }
  }

  // ---------- parseLogical ----------

  // Where the parentheses come back to balance.
  function CloseFrom(s: string, j: nat, depth: int): (end: Option<nat>)
    requires j <= |s|
    ensures end.Some? ==> j <= end.value < |s| && s[end.value] == ')'
    decreases |s| - j
  {
    if j == |s| then None
    else if s[j] == '(' then CloseFrom(s, j + 1, depth + 1)
    else if s[j] == ')' then if depth - 1 == 0 then Some(j) else CloseFrom(s, j + 1, depth - 1)
    else CloseFrom(s, j + 1, depth)
  }

  function TrimLeftCommas(s: string): string {
    if s != "" && s[0] == ',' then TrimLeftCommas(s[1..]) else s
  }

  datatype Compound = Compound(members: seq<string>, policy: string)

  function Parse(line: string): Compound {
    match IndexFrom(line, '(', 0)
    case None => Compound([], "")
    case Some(i) =>
      match CloseFrom(line, i, 0)
      case None => Compound([], "")
      case Some(end) =>
        if end <= i then Compound([], "")
        else
          var tail := TrimLeftCommas(line[end + 1..]);
          Compound(GroupsFrom(line[i + 1..end], 0, 0, -1), if tail == "" then "" else CsvFrom(tail, 0, "", false)[0])
  }

  method ParseLogical(line: string) returns (members: seq<string>, policy: string)
    ensures Compound(members, policy) == Parse(line)
  {
    var i := IndexFrom(line, '(', 0);
    if i.None? {
      return [], "";
    }
    var depth, end := 0, -1;
    var j := i.value;
    while j < |line|
      invariant i.value <= j <= |line| && end == -1
      invariant CloseFrom(line, j, depth) == CloseFrom(line, i.value, 0)
    {
      if line[j] == '(' {
        depth := depth + 1;
      } else if line[j] == ')' {
        depth := depth - 1;
        if depth == 0 {
          end := j;
          break;
        }
      }
      j := j + 1;
    }
    if end < 0 {
      return [], "";
    }
    var group := line[i.value + 1..end];
    var tail := TrimLeftCommas(line[end + 1..]);
    policy := "";
    if tail != "" {
      var fields := CsvSplit(tail);
      policy := fields[0];
    }
    members := SplitTopParens(group);
  }

  // ---------- balanced strings ----------

  function Step(c: char): int {
    if c == '(' then 1 else if c == ')' then -1 else 0
  }

  function Net(s: string): int {
    if s == "" then 0 else Net(s[..|s| - 1]) + Step(s[|s| - 1])
  }

  predicate Balanced(s: string) {
    Net(s) == 0 && forall k :: 0 <= k <= |s| ==> Net(s[..k]) >= 0
  }

  lemma NetStep(m: string, k: nat)
    requires k < |m|
    ensures Net(m[..k + 1]) == Net(m[..k]) + Step(m[k])
  {
    assert m[..k + 1][..k] == m[..k];
  }

  // Inside an open parenthesis a balanced text changes nothing.
  lemma {:induction false} GroupsPass(s: string, a: nat, m: string, k: nat, depth: int, start: int)
    requires At(s, a, m) && Balanced(m) && k <= |m| && depth >= 1 && start <= a
    ensures GroupsFrom(s, a, depth, start) == GroupsFrom(s, a + k, depth + Net(m[..k]), start)
  {
    if k == 0 {
      assert m[..0] == "";
    } else {
      GroupsPass(s, a, m, k - 1, depth, start);
      NetStep(m, k - 1);
      assert s[a + (k - 1)] == m[k - 1];
      assert Net(m[..k - 1]) >= 0 && Net(m[..k]) >= 0;
    }
  }

  lemma {:induction false} ClosePass(s: string, a: nat, m: string, k: nat, depth: int)
    requires At(s, a, m) && Balanced(m) && k <= |m| && depth >= 1
    ensures CloseFrom(s, a, depth) == CloseFrom(s, a + k, depth + Net(m[..k]))
  {
    if k == 0 {
      assert m[..0] == "";
    } else {
      ClosePass(s, a, m, k - 1, depth);
      NetStep(m, k - 1);
      assert s[a + (k - 1)] == m[k - 1];
      assert Net(m[..k - 1]) >= 0 && Net(m[..k]) >= 0;
    }
  }

  // ---------- the printer ----------

  function PrintMembers(ms: seq<string>): string {
    if ms == [] then "" else if |ms| == 1 then "(" + ms[0] + ")" else "(" + ms[0] + ")," + PrintMembers(ms[1..])
  }

  predicate AllBalanced(ms: seq<string>) {
    forall m :: m in ms ==> Balanced(m)
  }

  lemma MemberAt(s: string, a: nat, m: string)
    requires At(s, a, "(" + m + ")")
    ensures a + |m| + 2 <= |s| && s[a] == '(' && s[a + |m| + 1] == ')'
    ensures At(s, a + 1, m) && s[a + 1..a + 1 + |m|] == m
  {
    var p := "(" + m + ")";
    assert s[a + 0] == p[0] && s[a + (|m| + 1)] == p[|m| + 1];
    assert forall i :: 0 <= i < |m| ==> s[a + (i + 1)] == p[i + 1] == m[i];
  }

  // One printed member at a, at the top level.
  lemma MemberGroup(s: string, a: nat, m: string)
    requires Balanced(m) && At(s, a, "(" + m + ")")
    ensures GroupsFrom(s, a, 0, -1) == [m] + GroupsFrom(s, a + |m| + 2, 0, -1)
  {
    MemberAt(s, a, m);
    hide At, Balanced;
    GroupsPass(s, a + 1, m, |m|, 1, a + 1);
    assert m[..|m|] == m;
  }

  lemma MembersSplit(ms: seq<string>)
    requires |ms| > 1
    ensures var p, m := PrintMembers(ms), ms[0];
            p == "(" + m + ")" + "," + PrintMembers(ms[1..])
  {
  }

  lemma {:induction false} MembersGroups(s: string, a: nat, ms: seq<string>)
    requires AllBalanced(ms) && At(s, a, PrintMembers(ms))
    ensures GroupsFrom(s, a, 0, -1) == ms + GroupsFrom(s, a + |PrintMembers(ms)|, 0, -1)
    decreases |ms|
  {
    hide Balanced, At;
    if |ms| == 1 {
      MemberGroup(s, a, ms[0]);
      assert ms == [ms[0]];
    } else if |ms| > 1 {
      var first, more := "(" + ms[0] + ")", PrintMembers(ms[1..]);
      MembersSplit(ms);
      AtParts(s, a, first + ",", more);
      AtParts(s, a, first, ",");
      MemberGroup(s, a, ms[0]);
      CommaAt(s, a + |first|);
      MembersGroups(s, a + |first| + 1, ms[1..]);
      assert [ms[0]] + (ms[1..] + GroupsFrom(s, a + |first| + 1 + |more|, 0, -1))
             == ms + GroupsFrom(s, a + |first| + 1 + |more|, 0, -1);
    }
  }

  lemma MemberCloses(s: string, a: nat, m: string, depth: int)
    requires Balanced(m) && At(s, a, "(" + m + ")") && depth >= 1
    ensures CloseFrom(s, a, depth) == CloseFrom(s, a + |m| + 2, depth)
  {
    MemberAt(s, a, m);
    hide At, Balanced;
    ClosePass(s, a + 1, m, |m|, depth + 1);
    assert m[..|m|] == m;
  }

  lemma {:induction false} MembersClose(s: string, a: nat, ms: seq<string>, depth: int)
    requires AllBalanced(ms) && At(s, a, PrintMembers(ms)) && depth >= 1
    ensures CloseFrom(s, a, depth) == CloseFrom(s, a + |PrintMembers(ms)|, depth)
    decreases |ms|
  {
    hide Balanced, At;
    if |ms| == 1 {
      MemberCloses(s, a, ms[0], depth);
    } else if |ms| > 1 {
      var first, more := "(" + ms[0] + ")", PrintMembers(ms[1..]);
      MembersSplit(ms);
      AtParts(s, a, first + ",", more);
      AtParts(s, a, first, ",");
      MemberCloses(s, a, ms[0], depth);
      CommaAt(s, a + |first|);
      MembersClose(s, a + |first| + 1, ms[1..], depth);
    }
  }

  // head is the connective with its comma; rest is empty or further fields.
  function PrintLine(head: string, ms: seq<string>, policy: string, rest: string): string {
    head + "(" + PrintMembers(ms) + ")," + policy + rest
  }

  predicate Token(policy: string) {
    TrimSpace(policy) == policy && ',' !in policy && '"' !in policy
  }

  lemma {:induction false} CsvToken(s: string, i: nat, policy: string, cur: string)
    requires policy <= s && i <= |policy| && cur == policy[..i] && ',' !in policy && '"' !in policy
    requires |s| == |policy| || s[|policy|] == ','
    ensures CsvFrom(s, i, cur, false)[0] == TrimSpace(policy)
    decreases |policy| - i
  {
    if i < |policy| {
      assert s[i] == policy[i] && policy[i] in policy;
      assert cur + [s[i]] == policy[..i + 1];
      CsvToken(s, i + 1, policy, cur + [s[i]]);
    } else {
      assert cur == policy;
    }
  }

  lemma TailPolicy(policy: string, rest: string)
    requires Token(policy) && (rest == "" || (rest[0] == ',' && policy != ""))
    ensures var tail := TrimLeftCommas("," + policy + rest);
            (if tail == "" then "" else CsvFrom(tail, 0, "", false)[0]) == policy
  {
    var line := "," + policy + rest;
    assert line[1..] == policy + rest;
    if policy != "" {
      assert policy[0] in policy;
      assert TrimLeftCommas(line) == policy + rest;
      CsvToken(policy + rest, 0, policy, "");
    } else {
      assert policy + rest == "";
    }
  }

  lemma {:induction false} IndexIs(s: string, c: char, i: nat, k: nat)
    requires i <= k < |s| && s[k] == c && forall j :: i <= j < k ==> s[j] != c
    ensures IndexFrom(s, c, i) == Some(k)
    decreases k - i
  {
    if i < k {
      IndexIs(s, c, i + 1, k);
    }
  }

  /** The parser recovers exactly the members and the policy of a printed line, for any balanced members. */
  lemma ParsePrinted(head: string, ms: seq<string>, policy: string, rest: string)
    requires '(' !in head && AllBalanced(ms) && Token(policy)
    requires rest == "" || (rest[0] == ',' && policy != "")
    ensures Parse(PrintLine(head, ms, policy, rest)) == Compound(ms, policy)
  {
    hide Balanced, PrintMembers, Token, At, GroupsFrom, CloseFrom, CsvFrom, TrimLeftCommas, IndexFrom, Parse, PrintLine;
    var line, group, tail := PrintLine(head, ms, policy, rest), PrintMembers(ms), "," + policy + rest;
    LineJoined(head, ms, policy, rest);
    LineLayout(head, group, tail, line);
    var i, end := |head|, |head| + 1 + |group|;
    IndexIs(line, '(', 0, i);
    MembersClose(line, i + 1, ms, 1);
    CloseEnds(line, i, end);
    WholeAt(group);
    MembersGroups(group, 0, ms);
    GroupsEnd(group);
    assert ms + [] == ms;
    TailPolicy(policy, rest);
    ParseLaidOut(line, i, end, ms, policy);
  }

  lemma LineJoined(head: string, ms: seq<string>, policy: string, rest: string)
    ensures PrintLine(head, ms, policy, rest) == head + "(" + PrintMembers(ms) + ")" + ("," + policy + rest)
  {
  }

  lemma ParseLaidOut(line: string, i: nat, end: nat, ms: seq<string>, policy: string)
    requires i < end < |line| && IndexFrom(line, '(', 0) == Some(i) && CloseFrom(line, i, 0) == Some(end)
    requires GroupsFrom(line[i + 1..end], 0, 0, -1) == ms
    requires var tail := TrimLeftCommas(line[end + 1..]);
             (if tail == "" then "" else CsvFrom(tail, 0, "", false)[0]) == policy
    ensures Parse(line) == Compound(ms, policy)
  {
    hide GroupsFrom, CloseFrom, CsvFrom, TrimLeftCommas, IndexFrom;
  }

  lemma CloseEnds(s: string, i: nat, end: nat)
    requires i < end < |s| && s[i] == '(' && s[end] == ')'
    ensures CloseFrom(s, i, 0) == CloseFrom(s, i + 1, 1) && CloseFrom(s, end, 1) == Some(end)
  {
  }

  lemma GroupsEnd(s: string)
    ensures GroupsFrom(s, |s|, 0, -1) == []
  {
  }

  lemma WholeAt(s: string)
    ensures At(s, 0, s)
  {
  }

  lemma LineLayout(head: string, group: string, tail: string, line: string)
    requires '(' !in head && line == head + "(" + group + ")" + tail
    ensures var i, end := |head|, |head| + 1 + |group|;
            && end < |line| && line[i] == '(' && line[end] == ')'
            && (forall j :: 0 <= j < i ==> line[j] != '(')
            && line[i + 1..end] == group && line[end + 1..] == tail && At(line, i + 1, group)
  {
    assert forall j :: 0 <= j < |head| ==> line[j] == head[j];
  }
}
