/** Which bytes the TCP forwarder's parser takes for a ClientHello, and what it reads in them: its answer on every input,
    well formed or not, is the one the grammar of the message gives. */
module HelloGrammar {
  import opened Text
  import opened ClientHello

  // ---------- the server name list ----------

  predicate NoHost(entries: seq<Entry>) {
    forall e :: e in entries ==> e.kind != 0
  }

  // Too little for an entry, or an entry that names a host.
  predicate EntrySays(rest: Bytes, sni: Sni) {
    match sni
    case NoSni => |rest| < 3
    case Name(name) => |name| < 0x10000 && [0] + PrintU16(|name|) + name <= rest
    case Malformed => false
  }

  ghost predicate EntriesSay(p: Bytes, sni: Sni) {
    exists before: seq<Entry>, rest: Bytes ::
      FitsEntries(before) && NoHost(before) && p == PrintEntries(before) + rest && EntrySays(rest, sni)
  }

  lemma U16Back(b: Bytes)
    requires |b| >= 2
    ensures PrintU16(U16(b)) == b[..2]
  {
  }

  lemma TailWindow(b: Bytes, k: nat, lo: nat, hi: nat)
    requires lo <= hi && k + hi <= |b|
    ensures b[k..][lo..hi] == b[k + lo..k + hi]
  {
  }

  lemma EntryAt(kind: Byte, name: Bytes, rest: Bytes)
    requires |name| < 0x10000
    ensures var p := [kind] + PrintU16(|name|) + name + rest;
            U16(p[1..]) == |name| && p[3..3 + |name|] == name && p[3 + |name|..] == rest
  {
    var p := [kind] + PrintU16(|name|) + name + rest;
    assert p[1..] == PrintU16(|name|) + (name + rest);
    U16Print(|name|, name + rest);
  }

  lemma EntryBack(p: Bytes)
    requires |p| >= 3 && 3 + U16(p[1..]) <= |p|
    ensures p == [p[0]] + PrintU16(U16(p[1..])) + p[3..3 + U16(p[1..])] + p[3 + U16(p[1..])..]
  {
    U16Back(p[1..]);
    assert p[1..][..2] == p[1..3];
  }

  lemma {:induction false} FirstHostBehind(before: seq<Entry>, rest: Bytes)
    requires FitsEntries(before) && NoHost(before)
    ensures FirstHost(PrintEntries(before) + rest) == FirstHost(rest)
  {
    if before == [] {
      assert PrintEntries(before) + rest == rest;
    } else {
      var e, more := before[0], PrintEntries(before[1..]) + rest;
      EntryAt(e.kind, e.name, more);
      assert PrintEntries(before) + rest == [e.kind] + PrintU16(|e.name|) + e.name + more;
      FirstHostBehind(before[1..], rest);
    }
  }

  lemma {:induction false} EntriesRead(p: Bytes) returns (before: seq<Entry>, rest: Bytes)
    ensures FitsEntries(before) && NoHost(before) && p == PrintEntries(before) + rest
    ensures FirstHost(p).Malformed? || EntrySays(rest, FirstHost(p))
    decreases |p|
  {
    before, rest := [], p;
    if |p| >= 3 && 3 + U16(p[1..]) <= |p| {
      EntryBack(p);
      var n := U16(p[1..]);
      if p[0] != 0 {
        var more;
        more, rest := EntriesRead(p[3 + n..]);
        before := [Entry(p[0], p[3..3 + n])] + more;
        assert before[1..] == more;
      }
    }
  }

  lemma EntriesExactly(p: Bytes, sni: Sni)
    requires !sni.Malformed?
    ensures FirstHost(p) == sni <==> EntriesSay(p, sni)
  {
    var before, rest := EntriesRead(p);
    if EntriesSay(p, sni) {
      var es: seq<Entry>, tail: Bytes :|
        FitsEntries(es) && NoHost(es) && p == PrintEntries(es) + tail && EntrySays(tail, sni);
      FirstHostBehind(es, tail);
      if sni.Name? {
        EntryAt(0, sni.name, tail[3 + |sni.name|..]);
        assert tail == [0] + PrintU16(|sni.name|) + sni.name + tail[3 + |sni.name|..];
      }
    }
  }

  // b starts with v behind its two-byte length.
  predicate Prefixed(v: Bytes, b: Bytes) {
    |v| < 0x10000 && PrintU16(|v|) + v <= b
  }

  lemma PrefixedExactly(v: Bytes, b: Bytes)
    ensures Prefixed(v, b) <==> |b| >= 2 && 2 + U16(b) <= |b| && v == b[2..2 + U16(b)]
  {
    if Prefixed(v, b) {
      U16Print(|v|, v);
      assert U16(b) == |v| && b[2..2 + |v|] == v;
    }
    if |b| >= 2 && 2 + U16(b) <= |b| && v == b[2..2 + U16(b)] {
      U16Back(b);
    }
  }

  ghost predicate ListSays(d: Bytes, sni: Sni) {
    exists list: Bytes :: Prefixed(list, d) && EntriesSay(list, sni)
  }

  lemma ListExactly(d: Bytes, sni: Sni)
    requires !sni.Malformed?
    ensures ServerNameList(d) == sni <==> ListSays(d, sni)
  {
    hide EntriesSay, FirstHost, Prefixed, U16;
    if |d| >= 2 && 2 + U16(d) <= |d| {
      PrefixedExactly(d[2..2 + U16(d)], d);
      EntriesExactly(d[2..2 + U16(d)], sni);
    }
    if ListSays(d, sni) {
      var list: Bytes :| Prefixed(list, d) && EntriesSay(list, sni);
      PrefixedExactly(list, d);
    }
  }

  // ---------- the extensions ----------

  predicate NoServerName(exts: seq<Extension>) {
    forall e :: e in exts ==> e.kind != 0
  }

  // Too little for an extension, or a server_name extension.
  predicate ExtensionSays(rest: Bytes, found: Found) {
    match found
    case Absent => |rest| < 4
    case Data(d) => |rest| >= 2 && rest[0] == rest[1] == 0 && Prefixed(d, rest[2..])
    case Broken => false
  }

  ghost predicate ExtensionsSay(exts: Bytes, found: Found) {
    exists before: seq<Extension>, rest: Bytes ::
      FitsExtensions(before) && NoServerName(before) && exts == PrintExtensions(before) + rest && ExtensionSays(rest, found)
  }

  lemma ExtensionAt(kind: nat, data: Bytes, rest: Bytes)
    requires kind < 0x10000 && |data| < 0x10000
    ensures var b := PrintU16(kind) + PrintU16(|data|) + data + rest;
            U16(b) == kind && U16(b[2..]) == |data| && b[4..4 + |data|] == data && b[4 + |data|..] == rest
  {
    var b := PrintU16(kind) + PrintU16(|data|) + data + rest;
    assert b == PrintU16(kind) + (PrintU16(|data|) + (data + rest));
    U16Print(kind, PrintU16(|data|) + (data + rest));
    U16Print(|data|, data + rest);
  }

  lemma ExtensionBack(b: Bytes)
    requires |b| >= 4 && 4 + U16(b[2..]) <= |b|
    ensures b == PrintU16(U16(b)) + PrintU16(U16(b[2..])) + b[4..4 + U16(b[2..])] + b[4 + U16(b[2..])..]
  {
    U16Back(b);
    U16Back(b[2..]);
    assert b[2..][..2] == b[2..4];
  }

  lemma {:induction false} DataBehind(before: seq<Extension>, rest: Bytes)
    requires FitsExtensions(before) && NoServerName(before)
    ensures ServerNameData(PrintExtensions(before) + rest) == ServerNameData(rest)
  {
    if before == [] {
      assert PrintExtensions(before) + rest == rest;
    } else {
      var e, more := before[0], PrintExtensions(before[1..]) + rest;
      ExtensionAt(e.kind, e.data, more);
      assert PrintExtensions(before) + rest == PrintU16(e.kind) + PrintU16(|e.data|) + e.data + more;
      DataBehind(before[1..], rest);
    }
  }

  lemma {:induction false} ExtensionsRead(exts: Bytes) returns (before: seq<Extension>, rest: Bytes)
    ensures FitsExtensions(before) && NoServerName(before) && exts == PrintExtensions(before) + rest
    ensures ServerNameData(exts).Broken? || ExtensionSays(rest, ServerNameData(exts))
    decreases |exts|
  {
    before, rest := [], exts;
    if |exts| >= 4 && 4 + U16(exts[2..]) <= |exts| {
      var n := U16(exts[2..]);
      if U16(exts) != 0 {
        ExtensionBack(exts);
        var more;
        more, rest := ExtensionsRead(exts[4 + n..]);
        before := [Extension(U16(exts), exts[4..4 + n])] + more;
        assert before[1..] == more;
      } else {
        PrefixedExactly(exts[4..4 + n], exts[2..]);
        TailWindow(exts, 2, 2, 2 + n);
      }
    }
  }

  lemma ServerNameFirst(rest: Bytes, d: Bytes)
    requires ExtensionSays(rest, Data(d))
    ensures ServerNameData(rest) == Data(d)
  {
    PrefixedExactly(d, rest[2..]);
    TailWindow(rest, 2, 2, 2 + |d|);
  }

  lemma ExtensionsExactly(exts: Bytes, found: Found)
    requires !found.Broken?
    ensures ServerNameData(exts) == found <==> ExtensionsSay(exts, found)
  {
    hide ExtensionSays;
    var before, rest := ExtensionsRead(exts);
    if ExtensionsSay(exts, found) {
      var es: seq<Extension>, tail: Bytes :|
        FitsExtensions(es) && NoServerName(es) && exts == PrintExtensions(es) + tail && ExtensionSays(tail, found);
      DataBehind(es, tail);
      EndSays(tail, found);
    }
  }

  lemma EndSays(rest: Bytes, found: Found)
    requires ExtensionSays(rest, found)
    ensures ServerNameData(rest) == found
  {
    if found.Data? {
      ServerNameFirst(rest, found.data);
    }
  }

  // No room for extensions, none of them a server_name, or a list in the first that is.
  ghost predicate TailSays(r: Bytes, sni: Sni) {
    || (|r| < 2 && sni == NoSni)
    || (exists exts: Bytes :: Prefixed(exts, r) && ExtensionsSay(exts, Absent) && sni == NoSni)
    || (exists exts: Bytes, d: Bytes :: Prefixed(exts, r) && ExtensionsSay(exts, Data(d)) && ListSays(d, sni))
  }

  // What the parser makes of everything behind the fixed part.
  function SniOfTail(r: Bytes): Sni {
    if |r| < 2 then NoSni
    else match ExtensionsOf(r)
      case None => Malformed
      case Some(exts) => SniOf(ServerNameData(exts))
  }

  lemma TailExactly(r: Bytes, sni: Sni)
    requires !sni.Malformed?
    ensures SniOfTail(r) == sni <==> TailSays(r, sni)
  {
    hide ExtensionsSay, ListSays, ServerNameData, ServerNameList, Prefixed, U16;
    if |r| >= 2 && 2 + U16(r) <= |r| {
      var exts := r[2..2 + U16(r)];
      PrefixedExactly(exts, r);
      ExtensionsExactly(exts, Absent);
      if ServerNameData(exts).Data? {
        ExtensionsExactly(exts, ServerNameData(exts));
        ListExactly(ServerNameData(exts).data, sni);
      }
    }
    if exts: Bytes, d: Bytes :| Prefixed(exts, r) && ExtensionsSay(exts, Data(d)) && ListSays(d, sni) {
      PrefixedExactly(exts, r);
      ExtensionsExactly(exts, Data(d));
      ListExactly(d, sni);
    }
    if exts: Bytes :| Prefixed(exts, r) && ExtensionsSay(exts, Absent) {
      PrefixedExactly(exts, r);
      ExtensionsExactly(exts, Absent);
    }
  }

  // ---------- the fixed part and the message header ----------

  // Version and random, session id, cipher suites, compression methods.
  datatype Fixed = Fixed(prefix: Bytes, session: Bytes, suites: Bytes, compression: Bytes)

  predicate FitsFixed(f: Fixed) {
    |f.prefix| == 34 && |f.session| < 256 && |f.suites| < 0x10000 && |f.compression| < 256
  }

  function PrintFixed(f: Fixed, r: Bytes): Bytes
    requires FitsFixed(f)
  {
    f.prefix + ([|f.session|] + f.session + (PrintU16(|f.suites|) + f.suites + ([|f.compression|] + f.compression + r)))
  }

  lemma FixedPrinted(f: Fixed, r: Bytes)
    requires FitsFixed(f)
    ensures Rest(PrintFixed(f, r)) == Some(r)
  {
    var c := [|f.compression|] + f.compression + r;
    var b := PrintU16(|f.suites|) + f.suites + c;
    var a := [|f.session|] + f.session + b;
    assert PrintFixed(f, r)[34..] == a;
    Skip1Printed(f.session, b);
    Skip2Printed(f.suites, c);
    Skip1Printed(f.compression, r);
  }

  lemma Skip1Back(p: Bytes) returns (v: Bytes)
    requires Skip1(p).Some?
    ensures |v| < 256 && p == [|v|] + v + Skip1(p).value
  {
    v := p[1..1 + p[0]];
  }

  lemma Skip2Back(p: Bytes) returns (v: Bytes)
    requires Skip2(p).Some?
    ensures |v| < 0x10000 && p == PrintU16(|v|) + v + Skip2(p).value
  {
    v := p[2..2 + U16(p)];
    U16Back(p);
  }

  lemma FixedBack(p: Bytes) returns (f: Fixed)
    requires Rest(p).Some?
    ensures FitsFixed(f) && p == PrintFixed(f, Rest(p).value)
  {
    hide Skip1, Skip2, U16;
    var a := p[34..];
    var session := Skip1Back(a);
    var suites := Skip2Back(Skip1(a).value);
    var compression := Skip1Back(Skip2(Skip1(a).value).value);
    f := Fixed(p[..34], session, suites, compression);
    assert p == p[..34] + a;
  }

  ghost predicate BodySays(p: Bytes, sni: Sni) {
    exists f, r: Bytes :: FitsFixed(f) && p == PrintFixed(f, r) && TailSays(r, sni)
  }

  lemma BodyExactly(p: Bytes, sni: Sni)
    requires !sni.Malformed?
    ensures SniOfBody(p) == sni <==> BodySays(p, sni)
  {
    hide Rest, PrintFixed, TailSays, ExtensionsOf, SniOf;
    if Rest(p).Some? {
      var f := FixedBack(p);
      TailExactly(Rest(p).value, sni);
    }
    if BodySays(p, sni) {
      var f, r: Bytes :| FitsFixed(f) && p == PrintFixed(f, r) && TailSays(r, sni);
      FixedPrinted(f, r);
      TailExactly(r, sni);
    }
  }

  // b starts with a ClientHello of that body.
  predicate Headed(body: Bytes, b: Bytes) {
    var n := |body|;
    n < 0x1000000 && [1, n / 65536, n / 256 % 256, n % 256] + body <= b
  }

  /** The message may be followed by anything; what it says is said by its body. */
  ghost predicate Reads(b: Bytes, sni: Sni) {
    exists body: Bytes :: Headed(body, b) && BodySays(body, sni)
  }

  lemma ThreeBytes(a: Byte, b: Byte, c: Byte)
    ensures var n := (a as nat) * 65536 + (b as nat) * 256 + c as nat;
            n < 0x1000000 && n / 65536 == a && n / 256 % 256 == b && n % 256 == c
  {
  }

  lemma ThreeDigits(n: nat)
    requires n < 0x1000000
    ensures n / 65536 < 256 && n / 65536 * 65536 + n / 256 % 256 * 256 + n % 256 == n
  {
  }

  lemma HeadedExactly(body: Bytes, b: Bytes)
    ensures Headed(body, b) <==> HelloBody(b) == Some(body)
  {
    if Headed(body, b) {
      HeaderReads(body, b);
    }
    if HelloBody(b) == Some(body) {
      ThreeBytes(b[1], b[2], b[3]);
      assert |body| == HelloLength(b);
      assert b[..4] == [b[0], b[1], b[2], b[3]];
      assert b == b[..4] + b[4..];
    }
  }

  lemma HeaderReads(body: Bytes, b: Bytes)
    requires Headed(body, b)
    ensures HelloBody(b) == Some(body)
  {
    var n := |body|;
    ThreeDigits(n);
    var head: Bytes := [1, n / 65536, n / 256 % 256, n % 256];
    assert b[..4] == head;
    assert b[0] == head[0] && b[1] == head[1] && b[2] == head[2] && b[3] == head[3];
    assert b[4..4 + n] == body;
  }

  /** On any bytes at all the parser answers with a name, or with none, exactly when the grammar reads them so; it
      answers malformed exactly when the grammar does not read them. */
  lemma ExtractExactly(b: Bytes, sni: Sni)
    ensures !sni.Malformed? ==> (Extract(b) == sni <==> Reads(b, sni))
    ensures Extract(b).Malformed? <==> forall other: Sni :: !Reads(b, other)
  {
    hide HelloBody, Headed, BodySays, SniOfBody;
    forall other: Sni | !other.Malformed? ensures Extract(b) == other <==> Reads(b, other) {
      ReadsExactly(b, other);
    }
    forall other: Sni | other.Malformed? ensures !Reads(b, other) {
      NeverMalformed(b);
    }
    if !Extract(b).Malformed? {
      assert Reads(b, Extract(b));
    }
  }

  lemma ReadsExactly(b: Bytes, sni: Sni)
    requires !sni.Malformed?
    ensures Extract(b) == sni <==> Reads(b, sni)
  {
    hide HelloBody, Headed, BodySays, SniOfBody;
    if HelloBody(b).Some? {
      HeadedExactly(HelloBody(b).value, b);
      BodyExactly(HelloBody(b).value, sni);
    }
    if Reads(b, sni) {
      var body: Bytes :| Headed(body, b) && BodySays(body, sni);
      HeadedExactly(body, b);
    }
  }

  lemma NeverMalformed(b: Bytes)
    ensures !Reads(b, Malformed)
  {
  }

  // ---------- the QUIC forwarder's parser ----------

  // A TLS record, or the message without one.
  predicate Carries(data: Bytes, hs: Bytes) {
    && |data| >= 5
    && ((data[0] == 22 && Prefixed(hs, data[3..])) || (data[0] == 1 && hs == data))
  }

  // The first entry of the list names a host.
  ghost predicate QuicListSays(d: Bytes, name: Bytes) {
    exists list: Bytes :: Prefixed(list, d) && EntrySays(list, Name(name))
  }

  ghost predicate QuicTailSays(r: Bytes, name: Bytes) {
    exists exts: Bytes, d: Bytes :: Prefixed(exts, r) && ExtensionsSay(exts, Data(d)) && QuicListSays(d, name)
  }

  ghost predicate QuicBodySays(p: Bytes, name: Bytes) {
    exists f, r: Bytes :: FitsFixed(f) && p == PrintFixed(f, r) && QuicTailSays(r, name)
  }

  ghost predicate QuicReads(data: Bytes, name: Bytes) {
    exists hs: Bytes :: Carries(data, hs) && |hs| >= 4 && hs[0] == 1 && QuicBodySays(hs[4..], name)
  }

  lemma QuicEntryExactly(list: Bytes, name: Bytes)
    ensures EntrySays(list, Name(name))
            <==> |list| >= 3 && list[0] == 0 && U16(list[1..]) <= |list| - 3 && name == list[3..3 + U16(list[1..])]
  {
    if EntrySays(list, Name(name)) {
      EntryAt(0, name, list[3 + |name|..]);
      assert list == [0] + PrintU16(|name|) + name + list[3 + |name|..];
    }
    if |list| >= 3 && list[0] == 0 && U16(list[1..]) <= |list| - 3 && name == list[3..3 + U16(list[1..])] {
      EntryBack(list);
    }
  }

  lemma QuicListExactly(d: Bytes, name: Bytes)
    ensures QuicServerName(d) == Some(name) <==> QuicListSays(d, name)
  {
    hide Prefixed, U16, EntrySays;
    if |d| >= 2 && 2 + U16(d) <= |d| {
      PrefixedExactly(d[2..2 + U16(d)], d);
      QuicEntryExactly(d[2..2 + U16(d)], name);
    }
    if QuicListSays(d, name) {
      var list: Bytes :| Prefixed(list, d) && EntrySays(list, Name(name));
      PrefixedExactly(list, d);
    }
  }

  // What it makes of everything behind the fixed part.
  function QuicTail(r: Bytes): Option<Bytes> {
    if |r| < 2 then None
    else match ExtensionsOf(r)
      case None => None
      case Some(exts) => QuicSniOf(ServerNameData(exts))
  }

  lemma QuicTailExactly(r: Bytes, name: Bytes)
    ensures QuicTail(r) == Some(name) <==> QuicTailSays(r, name)
  {
    hide ExtensionsSay, QuicListSays, ServerNameData, QuicServerName, Prefixed, U16;
    if |r| >= 2 && 2 + U16(r) <= |r| {
      var exts := r[2..2 + U16(r)];
      PrefixedExactly(exts, r);
      if ServerNameData(exts).Data? {
        ExtensionsExactly(exts, ServerNameData(exts));
        QuicListExactly(ServerNameData(exts).data, name);
      }
    }
    if QuicTailSays(r, name) {
      var exts: Bytes, d: Bytes :| Prefixed(exts, r) && ExtensionsSay(exts, Data(d)) && QuicListSays(d, name);
      PrefixedExactly(exts, r);
      ExtensionsExactly(exts, Data(d));
      QuicListExactly(d, name);
    }
  }

  lemma QuicBodyExactly(p: Bytes, name: Bytes)
    ensures QuicBody(p) == Some(name) <==> QuicBodySays(p, name)
  {
    hide Rest, PrintFixed, QuicTailSays, ExtensionsOf, QuicSniOf;
    if Rest(p).Some? {
      var f := FixedBack(p);
      QuicTailExactly(Rest(p).value, name);
    }
    if QuicBodySays(p, name) {
      var f, r: Bytes :| FitsFixed(f) && p == PrintFixed(f, r) && QuicTailSays(r, name);
      FixedPrinted(f, r);
      QuicTailExactly(r, name);
    }
  }

  lemma CarriesExactly(data: Bytes, hs: Bytes)
    ensures Carries(data, hs) <==> Handshake(data) == Some(hs)
  {
    if |data| >= 5 {
      PrefixedExactly(hs, data[3..]);
      if data[0] == 22 && |data| >= 5 + U16(data[3..]) {
        TailWindow(data, 3, 2, 2 + U16(data[3..]));
      }
    }
  }

  /** The QUIC parser finds a name in any bytes exactly when this grammar has it: a record or a bare message, no length in
      the message header, and only the first entry of the list. */
  lemma QuicExactly(data: Bytes, name: Bytes)
    ensures QuicExtract(data) == Some(name) <==> QuicReads(data, name)
  {
    hide Handshake, Carries, QuicBody, QuicBodySays;
    if Handshake(data).Some? {
      var hs := Handshake(data).value;
      CarriesExactly(data, hs);
      if |hs| >= 4 {
        QuicBodyExactly(hs[4..], name);
      }
    }
    if QuicReads(data, name) {
      var hs: Bytes :| Carries(data, hs) && |hs| >= 4 && hs[0] == 1 && QuicBodySays(hs[4..], name);
      CarriesExactly(data, hs);
      QuicBodyExactly(hs[4..], name);
    }
  }
}
