/** Reading the server name out of a TLS ClientHello (section 7.4.1.2 of RFC 5246, section 3 of RFC 6066):
    the TCP forwarder's parser and the QUIC forwarder's parser, against a printer. */
module ClientHello {
  import opened Text

  type Byte = x: nat | x < 256
  type Bytes = seq<Byte>

  datatype Sni = Name(name: Bytes) | NoSni | Malformed

  // ---------- what the two parsers compute ----------

  function U16(b: Bytes): (n: nat)
    requires |b| >= 2
    ensures n < 0x10000
  {
    (b[0] as nat) * 256 + b[1] as nat
  }

  // Past a vector whose length takes one byte, or two.
  function Skip1(p: Bytes): Option<Bytes> {
    if |p| < 1 || 1 + p[0] > |p| then None else Some(p[1 + p[0]..])
  }

  function Skip2(p: Bytes): Option<Bytes> {
    if |p| < 2 || 2 + U16(p) > |p| then None else Some(p[2 + U16(p)..])
  }

  // What follows version, random, session id, cipher suites and compression methods.
  function Rest(p: Bytes): Option<Bytes> {
    if |p| < 34 then None
    else match Skip1(p[34..])
      case None => None
      case Some(a) => BehindSession(a)
  }

  function BehindSession(a: Bytes): Option<Bytes> {
    match Skip2(a)
    case None => None
    case Some(b) => Skip1(b)
  }

  datatype Found = Absent | Broken | Data(data: Bytes)

  // The data of the first server_name extension.
  function ServerNameData(exts: Bytes): Found {
    if |exts| < 4 then Absent
    else if 4 + U16(exts[2..]) > |exts| then Broken
    else if U16(exts) == 0 then Data(exts[4..4 + U16(exts[2..])])
    else ServerNameData(exts[4 + U16(exts[2..])..])
  }

  function ExtensionsOf(r: Bytes): Option<Bytes>
    requires |r| >= 2
  {
    if 2 + U16(r) > |r| then None else Some(r[2..2 + U16(r)])
  }

  // The first host_name of a list.
  function FirstHost(p: Bytes): Sni {
    if |p| < 3 then NoSni
    else if 3 + U16(p[1..]) > |p| then Malformed
    else if p[0] == 0 then Name(p[3..3 + U16(p[1..])])
    else FirstHost(p[3 + U16(p[1..])..])
  }

  function ServerNameList(d: Bytes): Sni {
    if |d| < 2 || 2 + U16(d) > |d| then Malformed else FirstHost(d[2..2 + U16(d)])
  }

  function SniOf(found: Found): Sni {
    match found
    case Absent => NoSni
    case Broken => Malformed
    case Data(d) => ServerNameList(d)
  }

  function HelloLength(b: Bytes): nat
    requires |b| >= 4
  {
    (b[1] as nat) * 65536 + (b[2] as nat) * 256 + b[3] as nat
  }

  function HelloBody(b: Bytes): Option<Bytes> {
    if |b| < 4 || b[0] != 1 || HelloLength(b) + 4 > |b| then None else Some(b[4..4 + HelloLength(b)])
  }

  function SniOfBody(p: Bytes): Sni {
    match Rest(p)
    case None => Malformed
    case Some(r) =>
      if |r| < 2 then NoSni
      else match ExtensionsOf(r)
        case None => Malformed
        case Some(exts) => SniOf(ServerNameData(exts))
  }

  function Extract(b: Bytes): Sni {
    match HelloBody(b)
    case None => Malformed
    case Some(p) => SniOfBody(p)
  }

  // ---------- the TCP forwarder's parser ----------

  method ParseServerNameList(b: Bytes) returns (sni: Sni)
    ensures sni == ServerNameList(b)
  {
    if |b| < 2 {
      return Malformed;
    }
    var listLen := U16(b);
    if 2 + listLen > |b| {
      return Malformed;
    }
    var p := b[2..2 + listLen];
    while |p| >= 3
      invariant FirstHost(p) == FirstHost(b[2..2 + listLen])
      decreases |p|
    {
      var nameLen := U16(p[1..]);
      if 3 + nameLen > |p| {
        return Malformed;
      }
      if p[0] == 0 {
        return Name(p[3..3 + nameLen]);
      }
      p := p[3 + nameLen..];
    }
    return NoSni;
  }

  method ExtractSNIFromHandshake(b: Bytes) returns (sni: Sni)
    ensures sni == Extract(b)
  {
    if |b| < 4 || b[0] != 1 {
      return Malformed;
    }
    var hsLen := HelloLength(b);
    if hsLen + 4 > |b| {
      return Malformed;
    }
    var p := b[4..4 + hsLen];
    if |p| < 34 {
      return Malformed;
    }
    p := p[34..];
    if |p| < 1 {
      return Malformed;
    }
    var sidLen := p[0];
    if 1 + sidLen > |p| {
      return Malformed;
    }
    p := p[1 + sidLen..];
    if |p| < 2 {
      return Malformed;
    }
    var csLen := U16(p);
    if 2 + csLen > |p| {
      return Malformed;
    }
    p := p[2 + csLen..];
    if |p| < 1 {
      return Malformed;
    }
    var compLen := p[0];
    if 1 + compLen > |p| {
      return Malformed;
    }
    p := p[1 + compLen..];
    assert Rest(b[4..4 + hsLen]) == Some(p);
    if |p| < 2 {
      return NoSni;
    }
    var extLen := U16(p);
    if 2 + extLen > |p| {
      return Malformed;
    }
    sni := ScanExtensions(p[2..2 + extLen]);
  }

  // The extension loop.
  method ScanExtensions(all: Bytes) returns (sni: Sni)
    ensures sni == SniOf(ServerNameData(all))
  {
    var exts := all;
    while |exts| >= 4
      invariant ServerNameData(exts) == ServerNameData(all)
      decreases |exts|
    {
      var extType := U16(exts);
      var thisLen := U16(exts[2..]);
      if 4 + thisLen > |exts| {
        return Malformed;
      }
      if extType == 0 {
        sni := ParseServerNameList(exts[4..4 + thisLen]);
        return;
      }
      exts := exts[4 + thisLen..];
    }
    return NoSni;
  }

  const MAX_TLS_RECORD_SIZE: nat := 16640

  datatype PeekError = ShortRead | NotTls | ImplausibleLength | HelloError(sni: Sni)

  /** stream is everything the client sends before it stops. What is handed back for replay is always exactly what
      was consumed once a record was read, and then it is that whole record. */
  method PeekSNI(stream: Bytes) returns (sni: Bytes, raw: Bytes, err: Option<PeekError>)
    ensures raw <= stream
    ensures err == None || (err.Some? && err.value.HelloError?) ==>
              && |stream| >= 5 && stream[0] == 22 && 0 < U16(stream[3..]) <= 16640
              && 5 + U16(stream[3..]) <= |stream| && raw == stream[..5 + U16(stream[3..])]
              && Extract(raw[5..]) == (if err == None then Name(sni) else err.value.sni)
    ensures err.Some? && err.value.HelloError? ==> !err.value.sni.Name?
    ensures err.Some? && !err.value.HelloError? ==> raw == if |stream| < 5 then [] else stream[..5]
    ensures err == Some(ImplausibleLength) <==>
              |stream| >= 5 && stream[0] == 22 && !(0 < U16(stream[3..]) <= 16640)
    ensures err == Some(NotTls) <==> |stream| >= 5 && stream[0] != 22
    ensures err == Some(ShortRead) ==>
              |stream| < 5 || |stream| < 5 + U16(stream[3..])
  {
    if |stream| < 5 {
      return [], [], Some(ShortRead);
    }
    var head := stream[..5];
    if head[0] != 22 {
      return [], head, Some(NotTls);
    }
    assert stream[3..][..2] == head[3..5];
    var recLen := U16(head[3..5]);
    if recLen <= 0 || recLen > MAX_TLS_RECORD_SIZE {
      return [], head, Some(ImplausibleLength);
    }
    if |stream| < 5 + recLen {
      return [], head, Some(ShortRead);
    }
    var body := stream[5..5 + recLen];
    raw := head + body;
    assert raw == stream[..5 + recLen] && raw[5..] == body;
    var found := ExtractSNIFromHandshake(body);
    if !found.Name? {
      return [], raw, Some(HelloError(found));
    }
    return found.name, raw, None;
  }

  // ---------- the QUIC forwarder's parser ----------

  // Looks only at the first entry of the list.
  function QuicServerName(d: Bytes): Option<Bytes> {
    if |d| < 2 || U16(d) > |d| - 2 then None
    else
      var sni := d[2..2 + U16(d)];
      if |sni| < 3 || sni[0] != 0 || U16(sni[1..]) > |sni| - 3 then None else Some(sni[3..3 + U16(sni[1..])])
  }

  function QuicSniOf(found: Found): Option<Bytes> {
    if found.Data? then QuicServerName(found.data) else None
  }

  // The record body, or the message itself when it comes without a record header.
  function Handshake(data: Bytes): Option<Bytes> {
    if |data| < 5 then None
    else if data[0] == 22 then if |data| < 5 + U16(data[3..]) then None else Some(data[5..5 + U16(data[3..])])
    else if data[0] == 1 then Some(data)
    else None
  }

  // Trusts the end of the data, not the length in the header.
  function QuicBody(p: Bytes): Option<Bytes> {
    match Rest(p)
    case None => None
    case Some(r) =>
      if |r| < 2 then None
      else match ExtensionsOf(r)
        case None => None
        case Some(exts) => QuicSniOf(ServerNameData(exts))
  }

  function QuicExtract(data: Bytes): Option<Bytes> {
    match Handshake(data)
    case None => None
    case Some(hs) => if |hs| < 4 || hs[0] != 1 then None else QuicBody(hs[4..])
  }

  // The offset walk over the fixed part; off is where the extensions' length stands.
  method WalkHello(hello: Bytes) returns (off: nat, ok: bool)
    ensures ok ==> off + 2 <= |hello| && Rest(hello) == Some(hello[off..])
    ensures !ok ==> Rest(hello).None? || |Rest(hello).value| < 2
  {
    if |hello| < 34 {
      return 0, false;
    }
    off := 34;
    if |hello| < off + 1 {
      return 0, false;
    }
    var sidLen := hello[off];
    assert hello[34..][0] == sidLen;
    off := off + 1;
    if |hello| < off + sidLen + 2 {
      return 0, false;
    }
    off := off + sidLen;
    assert Skip1(hello[34..]) == Some(hello[off..]);
    var csLen := U16(hello[off..off + 2]);
    assert csLen == U16(hello[off..]);
    ghost var suites := off;
    off := off + 2;
    if |hello| < off + csLen + 1 {
      return 0, false;
    }
    off := off + csLen;
    assert Skip2(hello[suites..]) == Some(hello[off..]);
    var cmLen := hello[off];
    ghost var methods := off;
    off := off + 1;
    if |hello| < off + cmLen + 2 {
      return 0, false;
    }
    off := off + cmLen;
    assert Skip1(hello[methods..]) == Some(hello[off..]);
    return off, true;
  }

  method HandshakeOf(data: Bytes) returns (hs: Option<Bytes>)
    ensures hs == Handshake(data)
  {
    if |data| < 5 {
      return None;
    }
    if data[0] == 22 {
      U16Window(data, 3);
      var recLen := U16(data[3..5]);
      if |data| < 5 + recLen {
        return None;
      }
      return Some(data[5..5 + recLen]);
    } else if data[0] == 1 {
      return Some(data);
    }
    return None;
  }

  method ExtensionsAt(hello: Bytes, off: nat) returns (exts: Option<Bytes>)
    requires off + 2 <= |hello|
    ensures exts == ExtensionsOf(hello[off..])
  {
    U16Window(hello, off);
    hide U16;
    var extLen := U16(hello[off..off + 2]);
    if |hello| < off + 2 + extLen {
      return None;
    }
    assert hello[off..][2..2 + extLen] == hello[off + 2..off + 2 + extLen];
    return Some(hello[off + 2..off + 2 + extLen]);
  }

  method SniFromClientHello(data: Bytes) returns (name: Option<Bytes>)
    ensures name == QuicExtract(data)
  {
    hide U16, Rest, ServerNameData, QuicServerName, QuicSniOf, Handshake, ExtensionsOf;
    var hs := HandshakeOf(data);
    if hs.None? {
      return None;
    }
    if |hs.value| < 4 || hs.value[0] != 1 {
      return None;
    }
    var hello := hs.value[4..];
    var off, ok := WalkHello(hello);
    if !ok {
      return None;
    }
    var exts := ExtensionsAt(hello, off);
    if exts.None? {
      return None;
    }
    name := QuicScan(exts.value);
  }

  method ReadServerName(d: Bytes) returns (name: Option<Bytes>)
    ensures name == QuicServerName(d)
  {
    if |d| < 2 {
      return None;
    }
    assert d[0..2] == d[..2];
    var listLen := U16(d[0..2]);
    if listLen > |d| - 2 {
      return None;
    }
    var sni := d[2..2 + listLen];
    if |sni| < 3 || sni[0] != 0 {
      return None;
    }
    assert sni[1..][..2] == sni[1..3];
    var nameLen := U16(sni[1..3]);
    if nameLen > |sni| - 3 {
      return None;
    }
    return Some(sni[3..3 + nameLen]);
  }

  lemma U16Window(b: Bytes, i: nat)
    requires i + 2 <= |b|
    ensures U16(b[i..i + 2]) == U16(b[i..])
  {
  }

  lemma ExtensionWindow(exts: Bytes, eo: nat)
    requires eo + 4 <= |exts|
    ensures U16(exts[eo..eo + 2]) == U16(exts[eo..]) && U16(exts[eo + 2..eo + 4]) == U16(exts[eo..][2..])
  {
    U16Window(exts, eo);
    U16Window(exts, eo + 2);
    assert exts[eo..][2..] == exts[eo + 2..];
  }

  lemma ExtensionSlices(exts: Bytes, eo: nat, n: nat)
    requires eo + 4 + n <= |exts|
    ensures exts[eo..][4..4 + n] == exts[eo + 4..eo + 4 + n] && exts[eo..][4 + n..] == exts[eo + 4 + n..]
  {
  }

  method QuicScan(exts: Bytes) returns (name: Option<Bytes>)
    ensures name == QuicSniOf(ServerNameData(exts))
  {
    hide U16, QuicServerName;
    var eo := 0;
    assert exts[0..] == exts;
    while eo + 4 <= |exts|
      invariant eo <= |exts| && ServerNameData(exts[eo..]) == ServerNameData(exts)
      decreases |exts| - eo
    {
      ExtensionWindow(exts, eo);
      var extType := U16(exts[eo..eo + 2]);
      var extDLen := U16(exts[eo + 2..eo + 4]);
      if eo + 4 + extDLen > |exts| {
        return None;
      }
      ExtensionSlices(exts, eo, extDLen);
      if extType == 0 {
        name := ReadServerName(exts[eo + 4..eo + 4 + extDLen]);
        return;
      }
      eo := eo + 4 + extDLen;
    }
    return None;
  }

  predicate FirstEntryIsHost(p: Bytes) {
    match Rest(p)
    case None => false
    case Some(r) =>
      |r| >= 2 && ExtensionsOf(r).Some?
      && var found := ServerNameData(ExtensionsOf(r).value); found.Data? && |found.data| >= 3 && found.data[2] == 0
  }

  /** On any data the QUIC parser finds a name exactly when the same structure holds it behind the four bytes of the
      message header, and the first entry of its list is a host_name. */
  lemma QuicFinds(data: Bytes, name: Bytes)
    ensures QuicExtract(data) == Some(name)
            <==> Handshake(data).Some?
                 && var hs := Handshake(data).value;
                    |hs| >= 4 && hs[0] == 1 && SniOfBody(hs[4..]) == Name(name) && FirstEntryIsHost(hs[4..])
  {
    if Handshake(data).Some? && |Handshake(data).value| >= 4 {
      var found := Rest(Handshake(data).value[4..]);
      if found.Some? && |found.value| >= 2 && ExtensionsOf(found.value).Some? {
        var data := ServerNameData(ExtensionsOf(found.value).value);
        if data.Data? {
          QuicNameAgrees(data.data, name);
        }
      }
    }
  }

  // Where the extensions of a message body end.
  function HelloEnd(p: Bytes): nat {
    match Rest(p)
    case None => |p|
    case Some(r) => if |r| < 2 || |r| > |p| then |p| else |p| - |r| + 2 + U16(r)
  }

  // What skipping a vector leaves of data that is cut off at n.
  function Cut(p: Bytes, skipped: Option<Bytes>, n: nat): Option<Bytes> {
    if skipped.Some? && 0 <= n - (|p| - |skipped.value|) <= |skipped.value|
    then Some(skipped.value[..n - (|p| - |skipped.value|)])
    else None
  }

  lemma CutBehind(p: Bytes, k: nat, n: nat)
    requires k <= n <= |p|
    ensures p[..n][k..] == p[k..][..n - k]
  {
  }

  lemma Skip1Cut(p: Bytes, n: nat)
    requires n <= |p|
    ensures Skip1(p[..n]) == Cut(p, Skip1(p), n)
    ensures Skip1(p).Some? ==> |Skip1(p).value| < |p|
  {
    if |p| >= 1 && 1 + p[0] <= n {
      CutBehind(p, 1 + p[0] as nat, n);
    }
  }

  lemma Skip2Cut(p: Bytes, n: nat)
    requires n <= |p|
    ensures Skip2(p[..n]) == Cut(p, Skip2(p), n)
    ensures Skip2(p).Some? ==> |Skip2(p).value| < |p|
  {
    if n >= 2 {
      assert U16(p[..n]) == U16(p);
      if 2 + U16(p) <= n {
        CutBehind(p, 2 + U16(p), n);
      }
    }
  }

  lemma RestShrinks(p: Bytes)
    ensures Rest(p).Some? ==> |Rest(p).value| + 34 <= |p|
  {
  }

  lemma BehindSessionCut(a: Bytes, n: nat)
    requires n <= |a|
    ensures BehindSession(a[..n]) == Cut(a, BehindSession(a), n)
    ensures BehindSession(a).Some? ==> |BehindSession(a).value| < |a|
  {
    hide Skip1, Skip2;
    Skip2Cut(a, n);
    if Skip2(a).Some? {
      var b := Skip2(a).value;
      var m := n - (|a| - |b|);
      Skip1Cut(b, if m >= 0 then m else 0);
    }
  }

  lemma RestCut(p: Bytes, n: nat)
    requires n <= |p|
    ensures Rest(p[..n]) == Cut(p, Rest(p), n)
  {
    RestShrinks(p);
    hide Skip1, BehindSession;
    if n >= 34 {
      var a := p[34..];
      CutBehind(p, 34, n);
      Skip1Cut(a, n - 34);
      if Skip1(a).Some? {
        var b := Skip1(a).value;
        var m := n - 34 - (|a| - |b|);
        BehindSessionCut(b, if m >= 0 then m else 0);
      }
    }
  }

  lemma ExtensionsCut(r: Bytes, m: nat)
    requires 2 <= m <= |r|
    ensures ExtensionsOf(r[..m]) == if 2 + U16(r) <= m then ExtensionsOf(r) else None
  {
    assert U16(r[..m]) == U16(r);
    if 2 + U16(r) <= m {
      assert r[..m][2..2 + U16(r)] == r[2..2 + U16(r)];
    }
  }

  // Cutting a message body leaves its name readable exactly when the extensions stay whole.
  lemma BodyCut(p: Bytes, n: nat, name: Bytes)
    requires n <= |p|
    ensures SniOfBody(p[..n]) == Name(name) <==> SniOfBody(p) == Name(name) && HelloEnd(p) <= n
  {
    RestCut(p, n);
    RestShrinks(p);
    hide Rest, ServerNameData, SniOf, ExtensionsOf, U16;
    if Rest(p).Some? && |Rest(p).value| >= 2 {
      var r := Rest(p).value;
      var m := n - (|p| - |r|);
      if m >= 2 {
        ExtensionsCut(r, m);
      }
      NoExtensions(r);
    }
  }

  lemma NoExtensions(r: Bytes)
    requires |r| >= 2
    ensures ExtensionsOf(r).None? <==> 2 + U16(r) > |r|
  {
  }

  /** The two parsers on one handshake message, with or without a record header around it: the TCP parser finds a name in
      a list that starts with a host_name exactly when the QUIC parser finds it, and the length in the message header,
      which only the TCP parser reads, reaches the end of the extensions and not past the data. */
  lemma QuicAgrees(data: Bytes, hs: Bytes, name: Bytes)
    requires Handshake(data) == Some(hs) && |hs| >= 4 && hs[0] == 1
    ensures Extract(hs) == Name(name) && FirstEntryIsHost(hs[4..])
            <==> QuicExtract(data) == Some(name) && HelloEnd(hs[4..]) <= HelloLength(hs) <= |hs| - 4
  {
    QuicFinds(data, name);
    hide HelloLength, SniOfBody, FirstEntryIsHost, QuicExtract, Handshake, HelloEnd;
    if HelloLength(hs) + 4 <= |hs| {
      BodyOf(hs);
      BodyCut(hs[4..], HelloLength(hs), name);
    }
  }

  lemma BodyOf(hs: Bytes)
    requires |hs| >= 4 && hs[0] == 1 && HelloLength(hs) + 4 <= |hs|
    ensures HelloBody(hs) == Some(hs[4..][..HelloLength(hs)])
  {
    hide HelloLength;
    assert hs[4..4 + HelloLength(hs)] == hs[4..][..HelloLength(hs)];
  }

  lemma QuicNameAgrees(d: Bytes, name: Bytes)
    ensures QuicServerName(d) == Some(name) <==> ServerNameList(d) == Name(name) && |d| >= 3 && d[2] == 0
  {
    if |d| >= 2 && 2 + U16(d) <= |d| {
      var p := d[2..2 + U16(d)];
      if |p| >= 3 {
        assert p[0] == d[2];
      }
    }
  }

  // ---------- the printer ----------

  datatype Entry = Entry(kind: Byte, name: Bytes)
  datatype Extension = Extension(kind: nat, data: Bytes)

  datatype Hello = Hello(
    prefix: Bytes, session: Bytes, suites: Bytes, compression: Bytes, extensions: Option<seq<Extension>>)

  function PrintU16(n: nat): Bytes
    requires n < 0x10000
  {
    [n / 256, n % 256]
  }

  predicate FitsEntries(entries: seq<Entry>) {
    forall e :: e in entries ==> |e.name| < 0x10000
  }

  function PrintEntries(entries: seq<Entry>): Bytes
    requires FitsEntries(entries)
  {
    if entries == [] then []
    else [entries[0].kind] + PrintU16(|entries[0].name|) + entries[0].name + PrintEntries(entries[1..])
  }

  predicate FitsList(entries: seq<Entry>) {
    FitsEntries(entries) && |PrintEntries(entries)| < 0x10000
  }

  function PrintList(entries: seq<Entry>): Bytes
    requires FitsList(entries)
  {
    PrintU16(|PrintEntries(entries)|) + PrintEntries(entries)
  }

  predicate FitsExtensions(exts: seq<Extension>) {
    forall e :: e in exts ==> e.kind < 0x10000 && |e.data| < 0x10000
  }

  function PrintExtensions(exts: seq<Extension>): Bytes
    requires FitsExtensions(exts)
  {
    if exts == [] then []
    else PrintU16(exts[0].kind) + PrintU16(|exts[0].data|) + exts[0].data + PrintExtensions(exts[1..])
  }

  predicate Fits(h: Hello) {
    && |h.prefix| == 34 && |h.session| < 256 && |h.suites| < 0x10000 && |h.compression| < 256
    && (h.extensions.Some? ==>
          FitsExtensions(h.extensions.value) && |PrintExtensions(h.extensions.value)| < 0x10000)
  }

  function PrintTail(h: Hello): Bytes
    requires Fits(h)
  {
    match h.extensions
    case None => []
    case Some(exts) => PrintU16(|PrintExtensions(exts)|) + PrintExtensions(exts)
  }

  function PrintBody(h: Hello): (p: Bytes)
    requires Fits(h)
    ensures |p| < 0x1000000
  {
    h.prefix + ([|h.session|] + h.session
                + (PrintU16(|h.suites|) + h.suites + ([|h.compression|] + h.compression + PrintTail(h))))
  }

  function PrintHello(h: Hello): Bytes
    requires Fits(h)
  {
    var n := |PrintBody(h)|;
    [1, n / 65536, n / 256 % 256, n % 256] + PrintBody(h)
  }

  // ---------- what a printed hello says ----------

  function FirstServerName(exts: seq<Extension>): Option<Bytes> {
    if exts == [] then None
    else if exts[0].kind == 0 then Some(exts[0].data)
    else FirstServerName(exts[1..])
  }

  function FirstHostEntry(entries: seq<Entry>): Sni {
    if entries == [] then NoSni
    else if entries[0].kind == 0 then Name(entries[0].name)
    else FirstHostEntry(entries[1..])
  }

  // The hello's server name, given the list its first server_name extension was printed from.
  function Says(h: Hello, entries: seq<Entry>): Sni {
    if h.extensions.Some? && FirstServerName(h.extensions.value).Some? then FirstHostEntry(entries) else NoSni
  }

  predicate WellFormed(h: Hello, entries: seq<Entry>) {
    && Fits(h) && FitsList(entries)
    && (h.extensions.Some? && FirstServerName(h.extensions.value).Some? ==>
          FirstServerName(h.extensions.value).value == PrintList(entries))
  }

  lemma U16Print(n: nat, rest: Bytes)
    requires n < 0x10000
    ensures U16(PrintU16(n) + rest) == n && (PrintU16(n) + rest)[2..] == rest
  {
  }

  lemma {:induction false} FirstHostPrinted(entries: seq<Entry>)
    requires FitsEntries(entries)
    ensures FirstHost(PrintEntries(entries)) == FirstHostEntry(entries)
  {
    if entries != [] {
      var e, rest := entries[0], PrintEntries(entries[1..]);
      var p := PrintEntries(entries);
      assert p == [e.kind] + (PrintU16(|e.name|) + (e.name + rest));
      assert p[1..] == PrintU16(|e.name|) + (e.name + rest);
      U16Print(|e.name|, e.name + rest);
      assert p[3..] == e.name + rest;
      assert p[3..3 + |e.name|] == e.name;
      assert p[3 + |e.name|..] == rest;
      FirstHostPrinted(entries[1..]);
    }
  }

  lemma ListPrinted(entries: seq<Entry>)
    requires FitsList(entries)
    ensures ServerNameList(PrintList(entries)) == FirstHostEntry(entries)
  {
    var p := PrintEntries(entries);
    U16Print(|p|, p);
    assert PrintList(entries)[2..2 + |p|] == p;
    FirstHostPrinted(entries);
  }

  lemma {:induction false} ExtensionsPrinted(exts: seq<Extension>)
    requires FitsExtensions(exts)
    ensures ServerNameData(PrintExtensions(exts))
            == match FirstServerName(exts) { case None => Absent case Some(d) => Data(d) }
  {
    if exts != [] {
      var e, rest := exts[0], PrintExtensions(exts[1..]);
      var p := PrintExtensions(exts);
      assert p == PrintU16(e.kind) + (PrintU16(|e.data|) + (e.data + rest));
      U16Print(e.kind, PrintU16(|e.data|) + (e.data + rest));
      U16Print(|e.data|, e.data + rest);
      assert p[4..] == e.data + rest;
      assert p[4..4 + |e.data|] == e.data;
      assert p[4 + |e.data|..] == rest;
      ExtensionsPrinted(exts[1..]);
    }
  }

  lemma Skip1Printed(v: Bytes, rest: Bytes)
    requires |v| < 256
    ensures Skip1([|v|] + v + rest) == Some(rest)
  {
    assert ([|v|] + v + rest)[1 + |v|..] == rest;
  }

  lemma Skip2Printed(v: Bytes, rest: Bytes)
    requires |v| < 0x10000
    ensures Skip2(PrintU16(|v|) + v + rest) == Some(rest)
  {
    var p := PrintU16(|v|) + v + rest;
    assert p == PrintU16(|v|) + (v + rest);
    U16Print(|v|, v + rest);
    assert p[2 + |v|..] == rest;
  }

  lemma BodyPrinted(h: Hello)
    requires Fits(h)
    ensures Rest(PrintBody(h)) == Some(PrintTail(h))
  {
    var c := [|h.compression|] + h.compression + PrintTail(h);
    var b := PrintU16(|h.suites|) + h.suites + c;
    var a := [|h.session|] + h.session + b;
    assert PrintBody(h)[34..] == a;
    Skip1Printed(h.session, b);
    Skip2Printed(h.suites, c);
    Skip1Printed(h.compression, PrintTail(h));
  }

  lemma HelloPrinted(h: Hello)
    requires Fits(h)
    ensures HelloBody(PrintHello(h)) == Some(PrintBody(h)) && HelloLength(PrintHello(h)) + 4 == |PrintHello(h)|
  {
    var n := |PrintBody(h)|;
    assert n / 65536 * 65536 + n / 256 % 256 * 256 + n % 256 == n;
    assert PrintHello(h)[4..4 + n] == PrintBody(h);
  }

  /** The TCP parser undoes the printer: the first host_name of the first server_name extension, or none. */
  lemma ExtractPrinted(h: Hello, entries: seq<Entry>)
    requires WellFormed(h, entries)
    ensures Extract(PrintHello(h)) == Says(h, entries)
  {
    HelloPrinted(h);
    BodyPrinted(h);
    if h.extensions.Some? {
      TailPrinted(h);
      ListPrinted(entries);
    }
  }

  lemma TailPrinted(h: Hello)
    requires Fits(h) && h.extensions.Some?
    ensures |PrintTail(h)| >= 2
    ensures ExtensionsOf(PrintTail(h)) == Some(PrintExtensions(h.extensions.value))
    ensures ServerNameData(PrintExtensions(h.extensions.value))
            == match FirstServerName(h.extensions.value) { case None => Absent case Some(d) => Data(d) }
  {
    var e := PrintExtensions(h.extensions.value);
    U16Print(|e|, e);
    assert PrintTail(h)[2..2 + |e|] == e;
    ExtensionsPrinted(h.extensions.value);
  }

  /** The QUIC parser finds the same name exactly when the list's first entry is a host_name, and otherwise none. */
  lemma QuicExtractPrinted(h: Hello, entries: seq<Entry>)
    requires WellFormed(h, entries)
    ensures QuicExtract(PrintHello(h))
            == if Says(h, entries).Name? && entries[0].kind == 0 then Some(Says(h, entries).name) else None
  {
    HelloPrinted(h);
    BodyPrinted(h);
    assert PrintHello(h)[4..] == PrintBody(h);
    if h.extensions.Some? {
      TailPrinted(h);
      QuicListPrinted(entries);
    }
  }

  // A printed hello whose message header gives another length.
  function WithLength(h: Hello, length: Bytes): Bytes
    requires Fits(h) && |length| == 3
  {
    [1] + length + PrintBody(h)
  }

  /** The length in the message header is nothing to the QUIC parser; with length zero the TCP parser refuses. */
  lemma HeaderLengthIgnored(h: Hello, entries: seq<Entry>, length: Bytes)
    requires WellFormed(h, entries) && |length| == 3
    ensures QuicExtract(WithLength(h, length)) == QuicExtract(PrintHello(h))
    ensures length == [0, 0, 0] ==> Extract(WithLength(h, length)) == Malformed
  {
    var body, data := PrintBody(h), WithLength(h, length);
    assert data[4..] == body && PrintHello(h)[4..] == body;
    if length == [0, 0, 0] {
      assert data[4..4] == [];
    }
  }

  /** A hello for the name "a" that only the QUIC parser finds. */
  lemma ShortHeaderExample() returns (data: Bytes)
    ensures QuicExtract(data) == Some([97]) && Extract(data) == Malformed
  {
    var entries := [Entry(0, [97])];
    var none: seq<Entry> := [];
    assert entries[1..] == none && PrintEntries(entries) == [0, 0, 1, 97];
    var exts := [Extension(0, PrintList(entries))];
    var noExts: seq<Extension> := [];
    assert exts[1..] == noExts && |PrintExtensions(exts)| == 10;
    var h := Hello(seq(34, i => 0), [], [], [], Some(exts));
    QuicExtractPrinted(h, entries);
    HeaderLengthIgnored(h, entries, [0, 0, 0]);
    data := WithLength(h, [0, 0, 0]);
  }

  lemma QuicListPrinted(entries: seq<Entry>)
    requires FitsList(entries)
    ensures QuicServerName(PrintList(entries))
            == if entries != [] && entries[0].kind == 0 then Some(entries[0].name) else None
  {
    var p := PrintEntries(entries);
    U16Print(|p|, p);
    assert PrintList(entries)[2..2 + |p|] == p;
    if entries != [] {
      var e, rest := entries[0], PrintEntries(entries[1..]);
      assert p == [e.kind] + (PrintU16(|e.name|) + (e.name + rest));
      assert p[1..] == PrintU16(|e.name|) + (e.name + rest);
      U16Print(|e.name|, e.name + rest);
      assert p[3..] == e.name + rest;
      assert p[3..3 + |e.name|] == e.name;
    }
  }

  // ---------- QUIC variable-length integers (section 16 of RFC 9000) ----------

  function BigEndian(b: Bytes): nat {
    if b == [] then 0 else BigEndian(b[..|b| - 1]) * 256 + b[|b| - 1]
  }

  function PrintBigEndian(v: nat, n: nat): (b: Bytes)
    ensures |b| == n
  {
    if n == 0 then [] else PrintBigEndian(v / 256, n - 1) + [v % 256]
  }

  function Power(n: nat): nat {
    if n == 0 then 1 else 256 * Power(n - 1)
  }

  predicate VarintSize(n: nat) {
    n == 1 || n == 2 || n == 4 || n == 8
  }

  // The two bits that announce the size.
  function Prefix(n: nat): nat
    requires VarintSize(n)
  {
    if n == 1 then 0 else if n == 2 then 1 else if n == 4 then 2 else 3
  }

  function SizeOf(first: Byte): (n: nat)
    ensures VarintSize(n)
  {
    if first / 64 == 0 then 1 else if first / 64 == 1 then 2 else if first / 64 == 2 then 4 else 8
  }

  // Value and size of the integer at the front; size 0 when the buffer is too short.
  function Varint(buf: Bytes): (nat, nat) {
    if buf == [] || |buf| < SizeOf(buf[0]) then (0, 0)
    else (BigEndian(buf[..SizeOf(buf[0])][0 := buf[0] % 64]), SizeOf(buf[0]))
  }

  method ReadVarint(buf: Bytes) returns (value: nat, consumed: nat)
    ensures (value, consumed) == Varint(buf)
  {
    if |buf| == 0 {
      return 0, 0;
    }
    var first := buf[0];
    var length := SizeOf(first);
    if |buf| < length {
      return 0, 0;
    }
    ghost var want := buf[..length][0 := first % 64];
    match length {
      case 1 => value := first % 64;
      case 2 => value := (first as nat % 64) * 256 + buf[1] as nat;
      case 4 =>
        value := (first as nat % 64) * 0x100_0000 + (buf[1] as nat) * 0x1_0000 + (buf[2] as nat) * 256 + buf[3] as nat;
      case _ =>
        value := BigEndian(buf[..8]);
        value := value % 0x4000_0000_0000_0000;
        MaskedBigEndian(buf[..8]);
    }
    ShortBigEndian(want);
    return value, length;
  }

  lemma ShortBigEndian(b: Bytes)
    ensures |b| == 1 ==> BigEndian(b) == b[0]
    ensures |b| == 2 ==> BigEndian(b) == (b[0] as nat) * 256 + b[1] as nat
    ensures |b| == 4 ==>
              BigEndian(b) == (b[0] as nat) * 0x100_0000 + (b[1] as nat) * 0x1_0000 + (b[2] as nat) * 256 + b[3] as nat
  {
    if |b| == 2 {
      assert b[..1] == [b[0]];
    } else if |b| == 4 {
      assert b[..3][..2] == b[..2] && b[..2][..1] == [b[0]];
      assert BigEndian(b[..2]) == (b[0] as nat) * 256 + b[1] as nat by {
        assert b[..2][..1] == [b[0]];
      }
      assert BigEndian(b[..3]) == BigEndian(b[..2]) * 256 + b[2] as nat;
    }
  }

  lemma {:induction false} LeadingByte(b: Bytes)
    requires b != []
    ensures BigEndian(b) == b[0] * Power(|b| - 1) + BigEndian(b[1..])
  {
    if |b| > 1 {
      LeadingByte(b[..|b| - 1]);
      assert b[1..][..|b| - 2] == b[..|b| - 1][1..];
      assert Power(|b| - 1) == 256 * Power(|b| - 2);
    }
  }

  lemma {:induction false} BigEndianBound(b: Bytes)
    ensures BigEndian(b) < Power(|b|)
  {
    if b != [] {
      BigEndianBound(b[..|b| - 1]);
    }
  }

  // Masking the top two bits of eight bytes is masking them in the first.
  lemma MaskedBigEndian(b: Bytes)
    requires |b| == 8
    ensures BigEndian(b) % 0x4000_0000_0000_0000 == BigEndian(b[0 := b[0] % 64])
  {
    var c := b[0 := b[0] % 64];
    LeadingByte(b);
    LeadingByte(c);
    assert b[1..] == c[1..];
    BigEndianBound(b[1..]);
    Powers();
    var low: int := BigEndian(b[1..]);
    var top: int := b[0];
    assert BigEndian(b) == (top / 64) * 0x4000_0000_0000_0000 + ((top % 64) * 0x100_0000_0000_0000 + low);
  }

  lemma Powers()
    ensures Power(1) == 256 && Power(2) == 65536 && Power(3) == 0x100_0000 && Power(4) == 0x1_0000_0000
    ensures Power(7) == 0x100_0000_0000_0000 && Power(8) == 0x1_0000_0000_0000_0000
  {
    assert Power(1) == 256 && Power(2) == 65536 && Power(3) == 0x100_0000 && Power(4) == 0x1_0000_0000;
    assert Power(5) == 0x100_0000_0000 && Power(6) == 0x1_0000_0000_0000;
  }

  function Capacity(n: nat): nat
    requires VarintSize(n)
  {
    if n == 1 then 0x40 else if n == 2 then 0x4000 else if n == 4 then 0x4000_0000 else 0x4000_0000_0000_0000
  }

  function PrintVarint(v: nat, n: nat): Bytes
    requires VarintSize(n) && v < Capacity(n)
  {
    var b := PrintBigEndian(v, n);
    FirstByteSmall(v, n);
    b[0 := b[0] + 64 * Prefix(n)]
  }

  lemma FirstByteSmall(v: nat, n: nat)
    requires VarintSize(n) && v < Capacity(n)
    ensures PrintBigEndian(v, n)[0] < 64
  {
    Powers();
    if n == 1 {
      FirstByte(v, 1, 0x40);
    } else if n == 2 {
      FirstByte(v, 2, 0x40);
    } else if n == 4 {
      FirstByte(v, 4, 0x40);
    } else {
      FirstByte(v, 8, 0x40);
    }
  }

  lemma {:induction false} FirstByte(v: nat, n: nat, top: nat)
    requires n > 0 && v < top * Power(n - 1)
    ensures PrintBigEndian(v, n)[0] < top || top >= 256
  {
    if n > 1 {
      assert v / 256 < top * Power(n - 2);
      FirstByte(v / 256, n - 1, top);
    }
  }

  lemma {:induction false} BigEndianPrinted(v: nat, n: nat)
    requires v < Power(n)
    ensures BigEndian(PrintBigEndian(v, n)) == v
  {
    if n > 0 {
      BigEndianPrinted(v / 256, n - 1);
      assert PrintBigEndian(v, n)[..n - 1] == PrintBigEndian(v / 256, n - 1);
    }
  }

  /** Every value survives every size that can hold it, whatever follows it in the buffer. */
  lemma VarintPrinted(v: nat, n: nat, rest: Bytes)
    requires VarintSize(n) && v < Capacity(n)
    ensures Varint(PrintVarint(v, n) + rest) == (v, n)
  {
    var b := PrintBigEndian(v, n);
    FirstByteSmall(v, n);
    var p := PrintVarint(v, n);
    assert (p + rest)[..n] == p;
    assert p[0] / 64 == Prefix(n) && p[0] % 64 == b[0];
    assert p[0 := b[0]] == b;
    PowerAbove(n);
    BigEndianPrinted(v, n);
  }

  /** And every proper prefix of it is refused. */
  lemma VarintCut(v: nat, n: nat, k: nat)
    requires VarintSize(n) && v < Capacity(n) && k < n
    ensures Varint(PrintVarint(v, n)[..k]) == (0, 0)
  {
    FirstByteSmall(v, n);
    assert PrintVarint(v, n)[0] / 64 == Prefix(n);
    if k > 0 {
      assert PrintVarint(v, n)[..k][0] == PrintVarint(v, n)[0];
    }
  }

  lemma PowerAbove(n: nat)
    requires VarintSize(n)
    ensures Capacity(n) <= Power(n)
  {
    Powers();
  }
}
