/** The server name walk over a TLS ClientHello (tls.c). */
module Tls {
  import opened Serial
  import opened Bytes

  const HEADER_LEN: nat := 5
  const HANDSHAKE: byte := 0x16
  const CLIENT_HELLO: byte := 1
  const FQDN_MAX: nat := 255

  datatype Option<T> = None | Some(value: T) {
    predicate IsFailure() { None? }
    function PropagateFailure<U>(): Option<U> requires None? { None }
    function Extract(): T requires Some? { value }
  }

  function Min(a: nat, b: nat): nat { if a < b then a else b }

  /** What a C string function sees: the bytes in front of the first NUL. */
  function CString(s: seq<byte>): (r: seq<byte>)
    ensures r <= s
  {
    if s == [] || s[0] == 0 then [] else [s[0]] + CString(s[1..])
  }

  /** A `char` compared with an int: negative from 0x80 on where char is signed. */
  function CharValue(b: byte, signed: bool): int {
    if signed && b >= 0x80 then b - 0x100 else b as int
  }

  // ----- the grammar -----

  /** A field with a one-byte or two-byte length in front, and what follows it. */
  datatype Field = Field(body: seq<byte>, rest: seq<byte>)

  function Vec8(r: seq<byte>): Option<Field> {
    if |r| < 1 then None else
      var len := r[0] as int;
      if |r| < 1 + len then None else Some(Field(r[1..1 + len], r[1 + len..]))
  }

  function Vec16(r: seq<byte>): Option<Field> {
    if |r| < 2 then None else
      var len := Be16(r, 0) as int;
      if |r| < 2 + len then None else Some(Field(r[2..2 + len], r[2 + len..]))
  }

  /** The entries of a ServerNameList: the first of type host_name, cut to 255 bytes. */
  function HostName(m: seq<byte>): Option<seq<byte>> {
    if |m| <= 3 then None else
      var len := Be16(m, 1);
      if 3 + len > |m| then None
      else if m[0] == 0 then Some(m[3..3 + Min(len, FQDN_MAX)])
      else HostName(m[3 + len..])
  }

  /** The body of a server_name extension: two bytes of list length are skipped unread. */
  function ServerName(n: seq<byte>): Option<seq<byte>> {
    if |n| < 2 then None else HostName(n[2..])
  }

  /** The extensions: the first of type server_name decides. */
  function Extensions(e: seq<byte>): Option<seq<byte>> {
    if |e| < 4 then None else
      var len := Be16(e, 2);
      if e[0] == 0 && e[1] == 0 then (if 4 + len > |e| then None else ServerName(e[4..4 + len]))
      else if 4 + len > |e| then None
      else Extensions(e[4 + len..])
  }

  /** The extensions block of the ClientHello in a record. */
  function ExtensionBlock(rec: seq<byte>): Option<seq<byte>> {
    if |rec| < 38 || rec[0] != CLIENT_HELLO then None else
      AfterRandom(rec[38..])
  }

  function Record(data: seq<byte>, signed: bool): Option<seq<byte>> {
    if |data| < HEADER_LEN || data[0] != HANDSHAKE || CharValue(data[1], signed) < 3 then None else
      var len := HEADER_LEN + Be16(data, 3);
      if |data| < len then None else Some(data[HEADER_LEN..len])
  }

  /** The server name of a TCP payload. */
  function Sni(data: seq<byte>, signed: bool): Option<seq<byte>> {
    var rec :- Record(data, signed);
    var extensions :- ExtensionBlock(rec);
    Extensions(extensions)
  }

  // ----- the parser -----

  /** strncpy: copies up to the first NUL, then pads with NULs. */
  method StrNCpy(dst: array<byte>, src: seq<byte>)
    requires |src| <= dst.Length
    modifies dst
    ensures CString(dst[..|src|]) == CString(src)
    ensures forall k | 0 <= k < |CString(src)| :: dst[k] == src[k]
    ensures forall k | |CString(src)| <= k < |src| :: dst[k] == 0
  {
    var i := 0;
    CStringLength(src);
    while i < |src| && src[i] != 0
      invariant 0 <= i <= |CString(src)| <= |src|
      invariant dst[..i] == src[..i]
    {
      dst[i] := src[i];
      i := i + 1;
    }
    while i < |src|
      invariant |CString(src)| <= i <= |src|
      invariant dst[..|CString(src)|] == src[..|CString(src)|]
      invariant forall k | |CString(src)| <= k < i :: dst[k] == 0
    {
      dst[i] := 0;
      i := i + 1;
    }
    assert dst[..|src|][..|CString(src)|] == src[..|CString(src)|];
    CStringOf(dst[..|src|], src);
  }

  /** The length of a C string is the index of its first NUL. */
  lemma {:induction false} CStringLength(s: seq<byte>)
    ensures |CString(s)| <= |s| && CString(s) == s[..|CString(s)|]
    ensures forall k | 0 <= k < |CString(s)| :: s[k] != 0
    ensures |CString(s)| < |s| ==> s[|CString(s)|] == 0
  {
    if s != [] && s[0] != 0 {
      CStringLength(s[1..]);
      assert s == [s[0]] + s[1..];
    }
  }

  lemma {:induction false} CStringOf(d: seq<byte>, s: seq<byte>)
    requires |d| >= |CString(s)| && |CString(s)| <= |s|
    requires d[..|CString(s)|] == s[..|CString(s)|]
    requires |d| > |CString(s)| ==> d[|CString(s)|] == 0
    ensures CString(d) == CString(s)
  {
    CStringLength(s);
    CStringLength(d);
    var n := |CString(s)|;
    assert forall k | 0 <= k < n :: d[k] == d[..n][k] && s[k] == s[..n][k];
  }

  /** The contents of the buffer after a name was found, or not. */
  ghost predicate Stored(hostname: array<byte>, before: seq<byte>, found: Option<seq<byte>>)
    reads hostname
  {
    match found
    case None => hostname[..] == before
    case Some(name) => CString(hostname[..]) == CString(name)
  }

  /** What the list of server names comes to from pos on. */
  function NamesFrom(data: seq<byte>, pos: nat): Option<seq<byte>> {
    if pos + 3 >= |data| then None else HostName(data[pos..])
  }

  lemma EntryAt(data: seq<byte>, pos: nat)
    requires pos + 3 < |data|
    ensures var len: nat := Be16(data, pos + 1);
            NamesFrom(data, pos) ==
            if pos + 3 + len > |data| then None
            else if data[pos] == 0 then Some(data[pos + 3..pos + 3 + Min(len, FQDN_MAX)])
            else NamesFrom(data, pos + 3 + len)
  {
    var m := data[pos..];
    var len: nat := Be16(data, pos + 1);
    assert Be16(m, 1) == len;
    if pos + 3 + len <= |data| {
      var name, rest := data[pos + 3..pos + 3 + Min(len, FQDN_MAX)], data[pos + 3 + len..];
      assert m[3 + len..] == rest && m[3..3 + Min(len, FQDN_MAX)] == name;
      assert HostName(m) == if m[0] == 0 then Some(name) else HostName(rest);
      assert |rest| <= 3 ==> HostName(rest) == None;
    }
  }

  /** strncpy into the buffer and a NUL behind the name */
  method StoreName(hostname: array<byte>, name: seq<byte>)
    requires |name| < hostname.Length
    modifies hostname
    ensures CString(hostname[..]) == CString(name)
  {
    StrNCpy(hostname, name);
    hostname[|name|] := 0;
    CStringLength(name);
    CStringOf(hostname[..], name);
  }

  /** parse_server_name_extension */
  method ParseServerNameExtension(data: seq<byte>, hostname: array<byte>)
    requires hostname.Length > FQDN_MAX
    modifies hostname
    ensures Stored(hostname, old(hostname[..]), ServerName(data))
  {
    var pos := 2;
    ghost var found := ServerName(data);
    while pos + 3 < |data|
      invariant pos >= 2 && hostname[..] == old(hostname[..])
      invariant found == NamesFrom(data, pos)
      decreases |data| - pos
    {
      EntryAt(data, pos);
      var len: nat := Be16(data, pos + 1);
      if pos + 3 + len > |data| {
        return;
      }
      if data[pos] == 0 {
        len := Min(len, FQDN_MAX);
        StoreName(hostname, data[pos + 3..pos + 3 + len]);
        assert found == Some(data[pos + 3..pos + 3 + len]);
        return;
      }
      pos := pos + 3 + len;
    }
  }

  /** parse_extensions */
  method ParseExtensions(data: seq<byte>, hostname: array<byte>)
    requires hostname.Length > FQDN_MAX
    modifies hostname
    ensures Stored(hostname, old(hostname[..]), Extensions(data))
  {
    var pos := 0;
    while pos + 4 <= |data|
      invariant pos >= 0 && hostname[..] == old(hostname[..])
      invariant pos <= |data| ==> Extensions(data) == Extensions(data[pos..])
      invariant pos > |data| ==> Extensions(data) == None
      decreases |data| - pos
    {
      assert Be16(data[pos..], 2) == Be16(data, pos + 2);
      var len: nat := Be16(data, pos + 2);
      if data[pos] == 0 && data[pos + 1] == 0 {
        if pos + 4 + len > |data| {
          return;
        }
        assert data[pos..][4..4 + len] == data[pos + 4..pos + 4 + len];
        ParseServerNameExtension(data[pos + 4..pos + 4 + len], hostname);
        return;
      }
      if pos + 4 + len <= |data| { assert data[pos..][4 + len..] == data[pos + 4 + len..]; }
      pos := pos + 4 + len;
    }
  }

  lemma Slices(data: seq<byte>, pos: nat, end: nat, skip: nat, len: nat)
    requires pos <= end <= |data|
    ensures pos + skip + len <= end ==>
              data[pos..end][skip..skip + len] == data[pos + skip..pos + skip + len] &&
              data[pos..end][skip + len..] == data[pos + skip + len..end]
  {
    if pos + skip + len <= end {
      var r := data[pos..end];
      assert forall i | 0 <= i < |r| :: r[i] == data[pos + i];
      var a, b := r[skip..skip + len], data[pos + skip..pos + skip + len];
      assert |a| == |b| && forall i | 0 <= i < |a| :: a[i] == r[skip + i] && b[i] == data[pos + skip + i];
      assert a == b;
    }
  }

  /** A length-prefixed field read in place, at pos of a record that ends at end. */
  lemma Vec8At(data: seq<byte>, pos: nat, end: nat)
    requires pos + 1 <= end <= |data|
    ensures var next := pos + 1 + data[pos] as int;
            Vec8(data[pos..end]) == if next > end then None else Some(Field(data[pos + 1..next], data[next..end]))
  {
    Slices(data, pos, end, 1, data[pos] as int);
  }

  lemma Vec16At(data: seq<byte>, pos: nat, end: nat)
    requires pos + 2 <= end <= |data|
    ensures var next := pos + 2 + Be16(data, pos) as int;
            Vec16(data[pos..end]) == if next > end then None else Some(Field(data[pos + 2..next], data[next..end]))
  {
    Slices(data, pos, end, 2, Be16(data, pos) as int);
  }

  /** The rest of a ClientHello from its session id on. */
  function AfterRandom(r: seq<byte>): Option<seq<byte>> {
    var session :- Vec8(r);
    AfterSession(session.rest)
  }

  function AfterSession(r: seq<byte>): Option<seq<byte>> {
    var ciphers :- Vec16(r);
    AfterCiphers(ciphers.rest)
  }

  function AfterCiphers(r: seq<byte>): Option<seq<byte>> {
    var compression :- Vec8(r);
    var extensions :- Vec16(compression.rest);
    Some(extensions.body)
  }

  // ----- the same in place -----

  datatype Span = Span(pos: nat, len: nat)

  function SessionAt(data: seq<byte>, pos: nat, end: nat): Option<Span>
    requires end <= |data|
  {
    if pos + 1 > end then None else CiphersAt(data, pos + 1 + data[pos] as int, end)
  }

  function CiphersAt(data: seq<byte>, pos: nat, end: nat): Option<Span>
    requires end <= |data|
  {
    if pos + 2 > end then None else CompressionAt(data, pos + 2 + Be16(data, pos) as int, end)
  }

  function CompressionAt(data: seq<byte>, pos: nat, end: nat): Option<Span>
    requires end <= |data|
  {
    if pos + 1 > end then None else ExtensionsAt(data, pos + 1 + data[pos] as int, end)
  }

  function ExtensionsAt(data: seq<byte>, pos: nat, end: nat): Option<Span>
    requires end <= |data|
  {
    if pos + 2 > end || pos + 2 + Be16(data, pos) as int > end then None else Some(Span(pos + 2, Be16(data, pos)))
  }

  predicate Means(data: seq<byte>, end: nat, at: Option<Span>, r: Option<seq<byte>>) {
    match at
    case None => r == None
    case Some(s) => s.pos + s.len <= end <= |data| && r == Some(data[s.pos..s.pos + s.len])
  }

  lemma CompressionMeans(data: seq<byte>, pos: nat, end: nat)
    requires pos <= end <= |data|
    ensures Means(data, end, CompressionAt(data, pos, end), AfterCiphers(data[pos..end]))
  {
    if pos + 1 <= end {
      Vec8At(data, pos, end);
      var next := pos + 1 + data[pos] as int;
      if next + 2 <= end { Vec16At(data, next, end); }
    }
  }

  lemma CiphersMeans(data: seq<byte>, pos: nat, end: nat)
    requires pos <= end <= |data|
    ensures Means(data, end, CiphersAt(data, pos, end), AfterSession(data[pos..end]))
  {
    if pos + 2 <= end {
      var next := pos + 2 + Be16(data, pos) as int;
      assert AfterSession(data[pos..end]) == if next > end then None else AfterCiphers(data[next..end]) by {
        Vec16At(data, pos, end);
      }
      if next <= end { CompressionMeans(data, next, end); }
    }
  }

  lemma SessionMeans(data: seq<byte>, pos: nat, end: nat)
    requires pos <= end <= |data|
    ensures Means(data, end, SessionAt(data, pos, end), AfterRandom(data[pos..end]))
  {
    if pos + 1 <= end {
      var next := pos + 1 + data[pos] as int;
      assert AfterRandom(data[pos..end]) == if next > end then None else AfterSession(data[next..end]) by {
        Vec8At(data, pos, end);
      }
      if next <= end { CiphersMeans(data, next, end); }
    }
  }

  /** parse_tls_header from the session id on: where the extensions are. */
  method SkipToExtensions(data: seq<byte>, start: nat, end: nat, ssl30: bool) returns (found: bool, pos: nat, len: nat)
    requires start <= end <= |data|
    ensures SessionAt(data, start, end) == if found then Some(Span(pos, len)) else None
  {
    found, pos, len := false, start, 0;
    if pos + 1 > end {
      return;
    }
    len := data[pos];
    pos := pos + 1 + len;
    if pos + 2 > end {
      return;
    }
    len := Be16(data, pos);
    pos := pos + 2 + len;
    if pos + 1 > end {
      return;
    }
    len := data[pos];
    pos := pos + 1 + len;
    if pos == end && ssl30 {
      return;
    }
    if pos + 2 > end {
      return;
    }
    len := Be16(data, pos);
    pos := pos + 2;
    if pos + len > end {
      return;
    }
    found := true;
  }

  method FindExtensions(data: seq<byte>, start: nat, end: nat, ssl30: bool) returns (found: bool, pos: nat, len: nat)
    requires start <= end <= |data|
    ensures found ==> pos + len <= end && AfterRandom(data[start..end]) == Some(data[pos..pos + len])
    ensures !found ==> AfterRandom(data[start..end]) == None
  {
    found, pos, len := SkipToExtensions(data, start, end, ssl30);
    SessionMeans(data, start, end);
  }

  /** parse_tls_header: every read is inside the payload, and the buffer ends up with the server name. */
  method ParseTlsHeader(data: seq<byte>, signed: bool, hostname: array<byte>)
    requires hostname.Length > FQDN_MAX
    modifies hostname
    ensures Stored(hostname, old(hostname[..]), Sni(data, signed))
  {
    if |data| < HEADER_LEN {
      return;
    }
    if data[0] >= 0x80 && data[2] == 1 {
      return;
    }
    if data[0] != HANDSHAKE {
      return;
    }
    if CharValue(data[1], signed) < 3 {
      return;
    }
    var len: nat := Be16(data, 3) as int + HEADER_LEN;
    var dataLen := Min(|data|, len);
    if dataLen < len {
      return;
    }
    var pos := HEADER_LEN;
    if pos + 1 > dataLen {
      return;
    }
    if data[pos] != CLIENT_HELLO {
      return;
    }
    pos := pos + 38;
    if pos > dataLen {
      return;
    }
    Slices(data, HEADER_LEN, dataLen, 38, 0);
    var found, at, size := FindExtensions(data, pos, dataLen, data[1] == 3 && data[2] == 0);
    if found {
      ParseExtensions(data[at..at + size], hostname);
    }
  }

  // ----- the grammar against a serializer -----

  lemma Vec8Iff(r: seq<byte>, f: Field)
    ensures Vec8(r) == Some(f) <==> |f.body| < 0x100 && r == [|f.body|] + f.body + f.rest
  {
  }

  lemma Vec16Iff(r: seq<byte>, f: Field)
    ensures Vec16(r) == Some(f) <==> |f.body| < 0x1_0000 && r == Put16(|f.body|) + f.body + f.rest
  {
  }

  /** One entry of a list: a type and a body. */
  datatype Entry = Entry(kind: u16, body: seq<byte>)

  function PutExtension(x: Entry): seq<byte>
    requires |x.body| < 0x1_0000
  {
    Put16(x.kind) + Put16(|x.body|) + x.body
  }

  predicate OtherExtensions(xs: seq<Entry>) {
    forall x | x in xs :: x.kind != 0 && |x.body| < 0x1_0000
  }

  function PutExtensions(xs: seq<Entry>): seq<byte>
    requires OtherExtensions(xs)
  {
    if xs == [] then [] else PutExtension(xs[0]) + PutExtensions(xs[1..])
  }

  function PutName(x: Entry): seq<byte>
    requires x.kind < 0x100 && |x.body| < 0x1_0000
  {
    [x.kind] + Put16(|x.body|) + x.body
  }

  predicate OtherNames(xs: seq<Entry>) {
    forall x | x in xs :: 0 < x.kind < 0x100 && |x.body| < 0x1_0000
  }

  function PutNames(xs: seq<Entry>): seq<byte>
    requires OtherNames(xs)
  {
    if xs == [] then [] else PutName(xs[0]) + PutNames(xs[1..])
  }

  /** A host_name entry a parser can take: it is not the last three bytes of the list. */
  predicate HostEntry(host: seq<byte>, rest: seq<byte>) {
    |host| < 0x1_0000 && (host != [] || rest != [])
  }

  /** The server name list starts with entries of other types and then this host name. */
  predicate ListStarts(m: seq<byte>, xs: seq<Entry>, host: seq<byte>, rest: seq<byte>) {
    OtherNames(xs) && HostEntry(host, rest) && m == PutNames(xs) + (PutName(Entry(0, host)) + rest)
  }

  lemma FirstHostName(m: seq<byte>, host: seq<byte>, rest: seq<byte>)
    requires HostEntry(host, rest) && m == PutName(Entry(0, host)) + rest
    ensures HostName(m) == Some(host[..Min(|host|, FQDN_MAX)])
  {
    var n := Min(|host|, FQDN_MAX);
    assert m[3..3 + |host|] == host;
    assert m[3..3 + n] == m[3..3 + |host|][..n];
    assert m[0] == 0 && m[1..3] == Put16(|host|);
  }

  lemma {:induction false} HostNameOfList(m: seq<byte>, xs: seq<Entry>, host: seq<byte>, rest: seq<byte>)
    requires ListStarts(m, xs, host, rest)
    ensures HostName(m) == Some(host[..Min(|host|, FQDN_MAX)])
    decreases |xs|
  {
    if xs == [] {
      assert m == PutName(Entry(0, host)) + rest;
      FirstHostName(m, host, rest);
    } else {
      var x := xs[0];
      var tail := PutNames(xs[1..]) + (PutName(Entry(0, host)) + rest);
      assert m == PutName(x) + tail;
      assert m[3 + |x.body|..] == tail;
      HostNameOfList(tail, xs[1..], host, rest);
    }
  }

  /** The first entry of a list that has a host name. */
  lemma FirstEntry(m: seq<byte>)
    requires HostName(m).Some?
    ensures var len: nat := Be16(m, 1) as int;
            3 + len <= |m| && m == PutName(Entry(m[0], m[3..3 + len])) + m[3 + len..]
  {
    SplitEntry(m, Be16(m, 1) as int);
  }

  lemma SplitEntry(m: seq<byte>, len: nat)
    requires |m| >= 3 && len == Be16(m, 1) as int && 3 + len <= |m|
    ensures m == PutName(Entry(m[0], m[3..3 + len])) + m[3 + len..]
  {
    assert Put16(len) == m[1..3];
    assert m == [m[0]] + m[1..3] + m[3..3 + len] + m[3 + len..];
  }

  lemma {:induction false} ListOfHostName(m: seq<byte>) returns (xs: seq<Entry>, host: seq<byte>, rest: seq<byte>)
    requires HostName(m).Some?
    ensures ListStarts(m, xs, host, rest)
    decreases |m|
  {
    FirstEntry(m);
    var len: nat := Be16(m, 1) as int;
    var tail := m[3 + len..];
    if m[0] == 0 {
      xs, host, rest := [], m[3..3 + len], tail;
    } else {
      var ys;
      ys, host, rest := ListOfHostName(tail);
      xs := [Entry(m[0], m[3..3 + len])] + ys;
      assert xs[1..] == ys;
      Reassociate(PutName(xs[0]), PutNames(ys), PutName(Entry(0, host)) + rest);
    }
  }

  lemma Reassociate(a: seq<byte>, b: seq<byte>, c: seq<byte>)
    ensures a + (b + c) == a + b + c
  {
  }

  /** The extensions start with others and then a server_name extension with this body. */
  predicate BlockStarts(e: seq<byte>, xs: seq<Entry>, body: seq<byte>, rest: seq<byte>) {
    OtherExtensions(xs) && |body| < 0x1_0000 && e == PutExtensions(xs) + (PutExtension(Entry(0, body)) + rest)
  }

  lemma {:induction false} ExtensionsOfBlock(e: seq<byte>, xs: seq<Entry>, body: seq<byte>, rest: seq<byte>)
    requires BlockStarts(e, xs, body, rest)
    ensures Extensions(e) == ServerName(body)
    decreases |xs|
  {
    if xs == [] {
      assert e == PutExtension(Entry(0, body)) + rest;
      assert e[4..4 + |body|] == body;
    } else {
      var x := xs[0];
      var tail := PutExtensions(xs[1..]) + (PutExtension(Entry(0, body)) + rest);
      assert e == PutExtension(x) + tail;
      assert e[0] == x.kind / 0x100 && e[1] == x.kind % 0x100 && Be16(e, 2) == |x.body|;
      assert e[4 + |x.body|..] == tail;
      ExtensionsOfBlock(tail, xs[1..], body, rest);
    }
  }

  lemma {:induction false} BlockOfExtensions(e: seq<byte>) returns (xs: seq<Entry>, body: seq<byte>, rest: seq<byte>)
    requires Extensions(e).Some?
    ensures BlockStarts(e, xs, body, rest)
    decreases |e|
  {
    var kind, len: nat := Be16(e, 0), Be16(e, 2);
    var here := e[4..4 + len];
    assert e == Put16(kind) + Put16(len) + here + e[4 + len..];
    if kind == 0 {
      xs, body, rest := [], here, e[4 + len..];
      assert PutExtension(Entry(0, body)) + rest == Put16(0) + Put16(len) + body + rest;
    } else {
      var x := Entry(kind, here);
      var ys;
      ys, body, rest := BlockOfExtensions(e[4 + len..]);
      xs := [x] + ys;
      assert e == PutExtension(x) + e[4 + len..];
      BlockGrows(x, e[4 + len..], ys, body, rest);
    }
  }

  lemma BlockGrows(x: Entry, tail: seq<byte>, ys: seq<Entry>, body: seq<byte>, rest: seq<byte>)
    requires x.kind != 0 && |x.body| < 0x1_0000 && BlockStarts(tail, ys, body, rest)
    ensures BlockStarts(PutExtension(x) + tail, [x] + ys, body, rest)
  {
    assert ([x] + ys)[1..] == ys;
  }

  /** A ClientHello in one record, RFC 5246 section 7.4.1.2 and RFC 6066 section 3. `skipped` is the handshake
      length, the version and the random, `junk` whatever follows the extensions in the record, `after` whatever
      follows the record in the payload. */
  datatype Hello = Hello(major: byte, minor: byte, skipped: seq<byte>, session: seq<byte>, ciphers: seq<byte>,
                         compression: seq<byte>, others: seq<Entry>, listLength: u16, otherNames: seq<Entry>,
                         host: seq<byte>, restOfList: seq<byte>, restOfExtensions: seq<byte>,
                         junk: seq<byte>, after: seq<byte>)

  predicate NamesFit(h: Hello) {
    OtherNames(h.otherNames) && HostEntry(h.host, h.restOfList)
  }

  function NameList(h: Hello): seq<byte>
    requires NamesFit(h)
  {
    Put16(h.listLength) + (PutNames(h.otherNames) + (PutName(Entry(0, h.host)) + h.restOfList))
  }

  predicate BlockFits(h: Hello) {
    NamesFit(h) && OtherExtensions(h.others) && |NameList(h)| < 0x1_0000
  }

  function Block(h: Hello): seq<byte>
    requires BlockFits(h)
  {
    PutExtensions(h.others) + (PutExtension(Entry(0, NameList(h))) + h.restOfExtensions)
  }

  predicate BodyFits(h: Hello) {
    && BlockFits(h) && |Block(h)| < 0x1_0000
    && |h.skipped| == 37 && |h.session| < 0x100 && |h.ciphers| < 0x1_0000 && |h.compression| < 0x100
  }

  function Fields(h: Hello): seq<byte>
    requires BodyFits(h)
  {
    [|h.session|] + h.session +
    (Put16(|h.ciphers|) + h.ciphers +
     ([|h.compression|] + h.compression +
      (Put16(|Block(h)|) + Block(h) + h.junk)))
  }

  function Body(h: Hello): seq<byte>
    requires BodyFits(h)
  {
    [1] + h.skipped + Fields(h)
  }

  predicate WellFormed(h: Hello, signed: bool) {
    BodyFits(h) && |Body(h)| < 0x1_0000 && h.major >= 3 && (signed ==> h.major < 0x80)
  }

  function Serialize(h: Hello): seq<byte>
    requires BodyFits(h) && |Body(h)| < 0x1_0000
  {
    [0x16, h.major, h.minor] + Put16(|Body(h)|) + Body(h) + h.after
  }

  lemma AfterRandomIff(r: seq<byte>, session: seq<byte>, ciphers: seq<byte>, compression: seq<byte>,
                       block: seq<byte>, junk: seq<byte>)
    requires |session| < 0x100 && |ciphers| < 0x1_0000 && |compression| < 0x100 && |block| < 0x1_0000
    requires r == [|session|] + session +
                  (Put16(|ciphers|) + ciphers + ([|compression|] + compression + (Put16(|block|) + block + junk)))
    ensures AfterRandom(r) == Some(block)
  {
    var r3 := Put16(|block|) + block + junk;
    var r2 := [|compression|] + compression + r3;
    var r1 := Put16(|ciphers|) + ciphers + r2;
    Vec8Iff(r, Field(session, r1));
    Vec16Iff(r1, Field(ciphers, r2));
    Vec8Iff(r2, Field(compression, r3));
    Vec16Iff(r3, Field(block, junk));
  }

  lemma FieldsOf(r: seq<byte>)
    returns (session: seq<byte>, ciphers: seq<byte>, compression: seq<byte>, block: seq<byte>, junk: seq<byte>)
    requires AfterRandom(r).Some?
    ensures |session| < 0x100 && |ciphers| < 0x1_0000 && |compression| < 0x100 && |block| < 0x1_0000
    ensures r == [|session|] + session +
                 (Put16(|ciphers|) + ciphers + ([|compression|] + compression + (Put16(|block|) + block + junk)))
    ensures AfterRandom(r) == Some(block)
  {
    var f0 := Vec8(r).value;
    var f1 := Vec16(f0.rest).value;
    var f2 := Vec8(f1.rest).value;
    var f3 := Vec16(f2.rest).value;
    Vec8Iff(r, f0);
    Vec16Iff(f0.rest, f1);
    Vec8Iff(f1.rest, f2);
    Vec16Iff(f2.rest, f3);
    session, ciphers, compression, block, junk := f0.body, f1.body, f2.body, f3.body, f3.rest;
  }

  lemma RecordIff(data: seq<byte>, signed: bool, rec: seq<byte>)
    ensures Record(data, signed) == Some(rec) <==>
            && |rec| < 0x1_0000 && |data| >= 5 && data[0] == HANDSHAKE && CharValue(data[1], signed) >= 3
            && data == [HANDSHAKE, data[1], data[2]] + Put16(|rec|) + rec + data[Min(|data|, 5 + |rec|)..]
  {
    if Record(data, signed) == Some(rec) {
      assert data[..5] == [HANDSHAKE, data[1], data[2]] + Put16(|rec|);
    }
    if |data| >= 5 && |rec| < 0x1_0000
       && data == [HANDSHAKE, data[1], data[2]] + Put16(|rec|) + rec + data[Min(|data|, 5 + |rec|)..]
    {
      assert Be16(data, 3) == |rec|;
      assert data[5..5 + |rec|] == rec;
    }
  }

  lemma RecordOfSerialized(h: Hello, signed: bool)
    requires WellFormed(h, signed)
    ensures Record(Serialize(h), signed) == Some(Body(h))
  {
    var data := Serialize(h);
    assert data[HEADER_LEN + |Body(h)|..] == h.after;
    RecordIff(data, signed, Body(h));
  }

  lemma BlockOfBody(h: Hello)
    requires BodyFits(h)
    ensures ExtensionBlock(Body(h)) == Some(Block(h))
  {
    assert Body(h)[38..] == Fields(h);
    AfterRandomIff(Fields(h), h.session, h.ciphers, h.compression, Block(h), h.junk);
  }

  lemma NameOfBlock(h: Hello)
    requires BlockFits(h)
    ensures Extensions(Block(h)) == Some(h.host[..Min(|h.host|, FQDN_MAX)])
  {
    ExtensionsOfBlock(Block(h), h.others, NameList(h), h.restOfExtensions);
    var list := NameList(h)[2..];
    assert list == PutNames(h.otherNames) + (PutName(Entry(0, h.host)) + h.restOfList);
    HostNameOfList(list, h.otherNames, h.host, h.restOfList);
  }

  predicate NulFree(s: seq<byte>) { forall i | 0 <= i < |s| :: s[i] != 0 }

  lemma {:induction false} WholeString(s: seq<byte>)
    requires NulFree(s)
    ensures CString(s) == s
  {
    if s != [] { WholeString(s[1..]); }
  }

  /** Parsing the serialization of a ClientHello gives back its host name, cut to 255 bytes, wherever the
      extension stands in the list and the name in the server name list. */
  lemma SniOfSerialized(h: Hello, signed: bool)
    requires WellFormed(h, signed)
    ensures Sni(Serialize(h), signed) == Some(h.host[..Min(|h.host|, FQDN_MAX)])
  {
    RecordOfSerialized(h, signed);
    BlockOfBody(h);
    NameOfBlock(h);
    SniSteps(Serialize(h), signed, Body(h), Block(h));
  }

  lemma SniSteps(data: seq<byte>, signed: bool, rec: seq<byte>, block: seq<byte>)
    requires Record(data, signed) == Some(rec) && ExtensionBlock(rec) == Some(block)
    ensures Sni(data, signed) == Extensions(block)
  {
  }

  /** A NUL-free host name that fits comes back whole as a C string. */
  lemma NameComesBack(h: Hello, signed: bool, name: seq<byte>)
    requires WellFormed(h, signed) && NulFree(h.host) && |h.host| <= 255
    requires Sni(Serialize(h), signed) == Some(name)
    ensures CString(name) == h.host
  {
    SniOfSerialized(h, signed);
    assert h.host[..|h.host|] == h.host;
    WholeString(h.host);
  }

  lemma NameListOf(n: seq<byte>) returns (listLength: u16, xs: seq<Entry>, host: seq<byte>, rest: seq<byte>)
    requires ServerName(n).Some?
    ensures OtherNames(xs) && HostEntry(host, rest)
    ensures n == Put16(listLength) + (PutNames(xs) + (PutName(Entry(0, host)) + rest))
  {
    xs, host, rest := ListOfHostName(n[2..]);
    listLength := Be16(n, 0);
    assert n == Put16(listLength) + n[2..];
  }

  /** Conversely, whatever the parser takes a name from is the serialization of some ClientHello. */
  lemma HelloOfSni(data: seq<byte>, signed: bool) returns (h: Hello)
    requires Sni(data, signed).Some?
    ensures WellFormed(h, signed) && data == Serialize(h)
  {
    var rec := Record(data, signed).value;
    RecordIff(data, signed, rec);
    var session, ciphers, compression, block, junk := FieldsOf(rec[38..]);
    var others, body, restOfExtensions := BlockOfExtensions(block);
    ExtensionsOfBlock(block, others, body, restOfExtensions);
    var listLength, otherNames, host, restOfList := NameListOf(body);
    h := Hello(data[1], data[2], rec[1..38], session, ciphers, compression, others, listLength, otherNames,
               host, restOfList, restOfExtensions, junk, data[5 + |rec|..]);
    BodyOfRecord(h, rec, body, block);
  }

  lemma BodyOfRecord(h: Hello, rec: seq<byte>, body: seq<byte>, block: seq<byte>)
    requires |rec| >= 38 && rec[0] == CLIENT_HELLO && h.skipped == rec[1..38]
    requires |h.session| < 0x100 && |h.ciphers| < 0x1_0000 && |h.compression| < 0x100 && |block| < 0x1_0000
    requires NamesFit(h) && body == NameList(h) && |body| < 0x1_0000
    requires OtherExtensions(h.others)
    requires block == PutExtensions(h.others) + (PutExtension(Entry(0, body)) + h.restOfExtensions)
    requires rec[38..] == [|h.session|] + h.session + (Put16(|h.ciphers|) + h.ciphers +
                          ([|h.compression|] + h.compression + (Put16(|block|) + block + h.junk)))
    ensures BodyFits(h) && Body(h) == rec
  {
    assert Block(h) == block;
    assert rec == [CLIENT_HELLO] + rec[1..38] + rec[38..];
  }

  /** The declarative reading of the parser on every byte string: it finds name b exactly if the payload is a
      ClientHello whose first server_name extension has b, cut to 255 bytes, as its first host name. */
  lemma SniIsDeclarative(data: seq<byte>, signed: bool, b: seq<byte>)
    ensures Sni(data, signed) == Some(b) <==>
            exists h :: WellFormed(h, signed) && data == Serialize(h) && b == h.host[..Min(|h.host|, 255)]
  {
    if Sni(data, signed).Some? {
      var h := HelloOfSni(data, signed);
      SniOfSerialized(h, signed);
    }
    forall h | WellFormed(h, signed) && data == Serialize(h)
      ensures Sni(data, signed) == Some(h.host[..Min(|h.host|, FQDN_MAX)])
    {
      SniOfSerialized(h, signed);
    }
  }
}
