/** The string operations the rule code relies on, over ASCII text. */
module Text {

  datatype Option<+T> = None | Some(value: T)

  function LowerChar(c: char): char {
    if 'A' <= c <= 'Z' then (c as int + 32) as char else c
  }

  function Lower(s: string): (r: string)
    ensures |r| == |s|
    ensures forall i :: 0 <= i < |s| ==> r[i] == LowerChar(s[i])
  {
    seq(|s|, i requires 0 <= i < |s| => LowerChar(s[i]))
  }

  predicate IsSpace(c: char) {
    c == ' ' || c == '\t' || c == '\n' || c == '\r' || c == '\U{0B}' || c == '\U{0C}'
  }

  function TrimLeft(s: string): string {
    if s != "" && IsSpace(s[0]) then TrimLeft(s[1..]) else s
  }

  function TrimRight(s: string): string {
    if s != "" && IsSpace(s[|s| - 1]) then TrimRight(s[..|s| - 1]) else s
  }

  function TrimSpace(s: string): string {
    TrimRight(TrimLeft(s))
  }

  predicate HasSuffix(s: string, suffix: string) {
    |suffix| <= |s| && s[|s| - |suffix|..] == suffix
  }

  predicate OccursAt(s: string, sub: string, i: nat) {
    i + |sub| <= |s| && s[i..i + |sub|] == sub
  }

  predicate Contains(s: string, sub: string) {
    exists i: nat :: i <= |s| && OccursAt(s, sub, i)
  }

  predicate NoOuterSpace(s: string) {
    s == "" || (!IsSpace(s[0]) && !IsSpace(s[|s| - 1]))
  }

  lemma TrimIsIdentity(s: string)
    requires NoOuterSpace(s)
    ensures TrimSpace(s) == s
  {
  }

  lemma SliceTwice(s: string, lo: nat, hi: nat, j: nat, k: nat)
    requires lo <= hi <= |s| && j <= k <= hi - lo
    ensures s[lo..hi][j..k] == s[lo + j..lo + k]
  {
    var t := s[lo..hi];
    assert forall i :: j <= i < k ==> t[i] == s[lo + i];
  }

  lemma {:induction false} TrimRightIsPrefix(s: string)
    ensures TrimRight(s) <= s
  {
    if s != "" && IsSpace(s[|s| - 1]) {
      TrimRightIsPrefix(s[..|s| - 1]);
    }
  }

  lemma {:induction false} TrimLeftIsSuffix(s: string)
    ensures |TrimLeft(s)| <= |s| && TrimLeft(s) == s[|s| - |TrimLeft(s)|..]
  {
    if s != "" && IsSpace(s[0]) {
      TrimLeftIsSuffix(s[1..]);
    }
  }

  lemma LowerSlice(s: string, lo: nat, hi: nat)
    requires lo <= hi <= |s|
    ensures Lower(s[lo..hi]) == Lower(s)[lo..hi]
  {
  }

  // The pieces between the separators, the empty ones too.
  function Split(s: string, sep: char): (r: seq<string>)
    ensures |r| >= 1
  {
    if s == "" then [""]
    else
      var rest := Split(s[1..], sep);
      if s[0] == sep then [""] + rest
      else [[s[0]] + rest[0]] + rest[1..]
  }

  function Join(parts: seq<string>, sep: string): string {
    if parts == [] then ""
    else if |parts| == 1 then parts[0]
    else parts[0] + sep + Join(parts[1..], sep)
  }

  lemma {:induction false} JoinSplit(s: string, sep: char)
    ensures Join(Split(s, sep), [sep]) == s
  {
    if s != "" {
      JoinSplit(s[1..], sep);
      var rest := Split(s[1..], sep);
      if s[0] == sep {
        assert ([""] + rest)[1..] == rest;
      } else {
        var parts := [[s[0]] + rest[0]] + rest[1..];
        assert parts[1..] == rest[1..];
      }
    }
  }

  lemma SplitCons(c: char, t: string, sep: char)
    ensures Split([c] + t, sep) ==
            if c == sep then [""] + Split(t, sep)
            else [[c] + Split(t, sep)[0]] + Split(t, sep)[1..]
  {
    assert ([c] + t)[1..] == t;
  }

  lemma SplitAtStep(c: char, t: string, sep: char, b: string)
    requires Split(t + [sep] + b, sep) == Split(t, sep) + Split(b, sep)
    ensures Split([c] + t + [sep] + b, sep) == Split([c] + t, sep) + Split(b, sep)
  {
    hide Split;
    SplitCons(c, t, sep);
    SplitCons(c, t + [sep] + b, sep);
    assert [c] + t + [sep] + b == [c] + (t + [sep] + b);
    var rest, more := Split(t, sep), Split(b, sep);
    assert [""] + (rest + more) == [""] + rest + more;
    assert (rest + more)[1..] == rest[1..] + more;
    assert [[c] + rest[0]] + (rest[1..] + more) == [[c] + rest[0]] + rest[1..] + more;
  }

  lemma {:induction false} SplitAt(a: string, sep: char, b: string)
    ensures Split(a + [sep] + b, sep) == Split(a, sep) + Split(b, sep)
  {
    if a == "" {
      SplitCons(sep, b, sep);
      assert a + [sep] + b == [sep] + b;
    } else {
      SplitAt(a[1..], sep, b);
      SplitAtStep(a[0], a[1..], sep, b);
      assert a == [a[0]] + a[1..];
    }
  }

  lemma {:induction false} JoinAppend(xs: seq<string>, ys: seq<string>, sep: string)
    requires xs != [] && ys != []
    ensures Join(xs + ys, sep) == Join(xs, sep) + sep + Join(ys, sep)
  {
    if |xs| == 1 {
      assert (xs + ys)[1..] == ys;
    } else {
      JoinAppend(xs[1..], ys, sep);
      assert (xs + ys)[1..] == xs[1..] + ys;
    }
  }

  // ---------- letters without their case ----------

  predicate Capital(c: char) {
    'A' <= c <= 'Z'
  }

  // The same letter in either case; 'a' is 32 above 'A'.
  predicate SameLetter(c: char, d: char) {
    || c == d
    || (Capital(c) && d as int == c as int + 32)
    || (Capital(d) && c as int == d as int + 32)
  }

  predicate SameButCase(s: string, t: string) {
    |s| == |t| && forall i :: 0 <= i < |s| ==> SameLetter(s[i], t[i])
  }

  // t is s in small letters.
  predicate SmallOf(s: string, t: string) {
    SameButCase(s, t) && forall i :: 0 <= i < |t| ==> !Capital(t[i])
  }

  lemma SmallExactly(s: string, t: string)
    ensures t == Lower(s) <==> SmallOf(s, t)
  {
    if SmallOf(s, t) {
      forall i | 0 <= i < |s| ensures t[i] == Lower(s)[i] {
        assert SameLetter(s[i], t[i]) && !Capital(t[i]);
      }
    }
  }

  // w is the word t in some case.
  lemma WordExactly(w: string, t: string)
    requires forall i :: 0 <= i < |t| ==> !Capital(t[i])
    ensures Lower(w) == t <==> SameButCase(w, t)
  {
    SmallExactly(w, t);
  }

  // ---------- outer blanks ----------

  predicate Blank(c: char) {
    c in {' ', '\t', '\n', '\r', '\U{0B}', '\U{0C}'}
  }

  // s[lo..hi] is s without its outer blanks.
  predicate TrimsTo(s: string, lo: nat, hi: nat) {
    && lo <= hi <= |s|
    && (forall i :: 0 <= i < lo ==> Blank(s[i])) && (forall i :: hi <= i < |s| ==> Blank(s[i]))
    && (lo < hi ==> !Blank(s[lo]) && !Blank(s[hi - 1]))
  }

  lemma {:induction false} TrimLeftEnd(s: string) returns (lo: nat)
    ensures lo <= |s| && TrimLeft(s) == s[lo..] && (forall i :: 0 <= i < lo ==> Blank(s[i]))
    ensures lo < |s| ==> !Blank(s[lo])
  {
    lo := 0;
    if s != "" && IsSpace(s[0]) {
      var rest := TrimLeftEnd(s[1..]);
      lo := rest + 1;
    }
  }

  lemma {:induction false} TrimRightEnd(s: string) returns (hi: nat)
    ensures hi <= |s| && TrimRight(s) == s[..hi] && (forall i :: hi <= i < |s| ==> Blank(s[i]))
    ensures hi > 0 ==> !Blank(s[hi - 1])
  {
    hi := |s|;
    if s != "" && IsSpace(s[|s| - 1]) {
      hi := TrimRightEnd(s[..|s| - 1]);
    }
  }

  lemma TrimEnds(s: string) returns (lo: nat, hi: nat)
    ensures TrimsTo(s, lo, hi) && TrimSpace(s) == s[lo..hi]
  {
    lo := TrimLeftEnd(s);
    var length := TrimRightEnd(s[lo..]);
    hi := lo + length;
    assert s[lo..][..length] == s[lo..hi];
    forall i | hi <= i < |s| ensures Blank(s[i]) {
      assert s[i] == s[lo..][i - lo];
    }
    if lo < hi {
      assert s[hi - 1] == s[lo..][length - 1];
    }
  }

  lemma TrimsOnce(s: string, lo: nat, hi: nat)
    requires TrimsTo(s, lo, hi)
    ensures TrimSpace(s) == s[lo..hi]
  {
    var a, b := TrimEnds(s);
    if lo < hi {
      assert a <= lo && hi <= b;
      assert lo <= a && b <= hi;
    } else {
      assert a < b ==> !(0 <= a < lo) && !(hi <= a < |s|);
    }
  }

  predicate AllBlank(s: string) {
    forall i :: 0 <= i < |s| ==> Blank(s[i])
  }

  lemma BlankExactly(s: string)
    ensures TrimSpace(s) == "" <==> AllBlank(s)
  {
    var lo, hi := TrimEnds(s);
    assert TrimSpace(s) == "" <==> lo == hi;
    assert lo < hi ==> !Blank(s[lo]);
  }

  lemma {:induction false} SplitWhole(s: string, sep: char)
    requires sep !in s
    ensures Split(s, sep) == [s]
  {
    if s != "" {
      assert s == [s[0]] + s[1..];
      SplitWhole(s[1..], sep);
      SplitCons(s[0], s[1..], sep);
    }
  }
}
