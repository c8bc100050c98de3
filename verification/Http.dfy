/** The request-line rewrite for the proxy (http.c). */
module Http {
  import opened Serial

  const CR: byte := 0x0D
  const LF: byte := 0x0A
  const SPACE: byte := 0x20
  const SLASH: byte := 0x2F
  const HOST_MAX: nat := 511

  const HOST: seq<byte> := [0x48, 0x6F, 0x73, 0x74, 0x3A, 0x20]         // "Host: "
  const SCHEME: seq<byte> := [0x68, 0x74, 0x74, 0x70, 0x3A, 0x2F, 0x2F] // "http://"
  const HTTP_COLON: seq<byte> := [0x68, 0x74, 0x74, 0x70, 0x3A]         // "http:"

  /** GET, POST, PUT, DELETE, HEAD, OPTIONS and PATCH, each with the space behind it, in the order tried. */
  const METHODS: seq<seq<byte>> := [
    [0x47, 0x45, 0x54, 0x20],
    [0x50, 0x4F, 0x53, 0x54, 0x20],
    [0x50, 0x55, 0x54, 0x20],
    [0x44, 0x45, 0x4C, 0x45, 0x54, 0x45, 0x20],
    [0x48, 0x45, 0x41, 0x44, 0x20],
    [0x4F, 0x50, 0x54, 0x49, 0x4F, 0x4E, 0x53, 0x20],
    [0x50, 0x41, 0x54, 0x43, 0x48, 0x20]]

  function Lower(b: byte): byte { if 0x41 <= b <= 0x5A then b + 0x20 else b }

  /** Bytes are equal in any case exactly if they are equal, or one letter in both cases. */
  lemma LowerIgnoresCase(a: byte, b: byte)
    ensures Lower(a) == Lower(b) <==>
            a == b || (0x41 <= a <= 0x5A && b == a + 0x20) || (0x41 <= b <= 0x5A && a == b + 0x20)
  {
  }

  function Ascii(s: string): seq<byte> { seq(|s|, i requires 0 <= i < |s| => s[i] as int % 0x100) }

  lemma WordsAre()
    ensures HOST == Ascii("Host: ") && SCHEME == Ascii("http://") && HTTP_COLON == Ascii("http:")
    ensures METHODS == [Ascii("GET "), Ascii("POST "), Ascii("PUT "), Ascii("DELETE "), Ascii("HEAD "),
                        Ascii("OPTIONS "), Ascii("PATCH ")]
  {
    assert METHODS[0] == Ascii("GET ") && METHODS[1] == Ascii("POST ") && METHODS[2] == Ascii("PUT ");
    assert METHODS[3] == Ascii("DELETE ") && METHODS[4] == Ascii("HEAD ");
    assert METHODS[5] == Ascii("OPTIONS ") && METHODS[6] == Ascii("PATCH ");
  }

  // ----- find_data -----

  /** The outcome of comparing bytes one after the other; Outside means the comparison read past the data. */
  datatype Comparison = Same | Different | Outside

  /** strncasecmp of value[i..] with the bytes at `at` */
  function Compare(data: seq<byte>, at: nat, value: seq<byte>, i: nat): Comparison
    requires i <= |value|
    decreases |value| - i
  {
    if i == |value| then Same
    else if at + i >= |data| then Outside
    else if Lower(data[at + i]) != Lower(value[i]) then Different
    else Compare(data, at, value, i + 1)
  }

  datatype Search = FoundAt(at: nat) | NotFound | Stray

  /** The inner loop: on to the next byte that equals the first one, or to the last two bytes. */
  function Skip(data: seq<byte>, p: nat, first: byte): (q: nat)
    requires p < |data|
    ensures p <= q < |data|
    decreases |data| - p
  {
    if data[p] != first && |data| - p > 2 then Skip(data, p + 1, first) else p
  }

  /** find_data from position p */
  function Find(data: seq<byte>, p: nat, value: seq<byte>): Search
    requires value != [] && p <= |data|
    decreases |data| - p
  {
    if |data| - p <= 2 then NotFound else
      var q := Skip(data, p, value[0]);
      match Compare(data, q, value, 0)
      case Same => FoundAt(q)
      case Different => Find(data, q + 1, value)
      case Outside => Stray
  }

  method StrNCaseCmp(data: seq<byte>, at: nat, value: seq<byte>) returns (same: bool)
    requires Compare(data, at, value, 0) != Outside
    ensures same <==> Compare(data, at, value, 0) == Same
  {
    var i := 0;
    while i < |value|
      invariant i <= |value| && Compare(data, at, value, i) == Compare(data, at, value, 0)
    {
      if Lower(data[at + i]) != Lower(value[i]) {
        return false;
      }
      i := i + 1;
    }
    return true;
  }

  /** find_data, where it reads no byte behind the data; -1 stands for the null pointer. */
  method FindData(data: seq<byte>, value: seq<byte>) returns (r: int)
    requires value != [] && !Find(data, 0, value).Stray?
    ensures Find(data, 0, value) == if r < 0 then NotFound else FoundAt(r)
  {
    var p, found := 0, false;
    while !found && |data| - p > 2
      invariant p <= |data|
      invariant found ==> Find(data, 0, value) == FoundAt(p)
      invariant !found ==> Find(data, 0, value) == Find(data, p, value)
      decreases !found, |data| - p
    {
      ghost var start := p;
      while data[p] != value[0] && |data| - p > 2
        invariant start <= p < |data| && Skip(data, start, value[0]) == Skip(data, p, value[0])
        decreases |data| - p
      {
        p := p + 1;
      }
      var same := StrNCaseCmp(data, p, value);
      if same {
        found := true;
      } else {
        p := p + 1;
      }
    }
    return if found then p else -1;
  }

  // ----- first match -----

  /** The value stands at position p, its first character in the same case and the others in any. */
  predicate Matches(data: seq<byte>, p: nat, value: seq<byte>)
    requires value != []
  {
    && p + |value| <= |data|
    && data[p] == value[0]
    && forall i | 1 <= i < |value| :: Lower(data[p + i]) == Lower(value[i])
  }

  /** The first position at which the value stands. */
  ghost predicate IsFirst(data: seq<byte>, value: seq<byte>, r: Search)
    requires value != []
  {
    match r
    case FoundAt(p) => Matches(data, p, value) && forall q: nat | q < p :: !Matches(data, q, value)
    case NotFound => forall q: nat :: !Matches(data, q, value)
    case Stray => false
  }

  predicate EndsLine(data: seq<byte>) {
    |data| >= 2 && data[|data| - 2] == CR && data[|data| - 1] == LF
  }

  /** A word to look for: no CR or LF in it. */
  predicate OneLine(value: seq<byte>) {
    value != [] && forall i | 0 <= i < |value| :: value[i] != CR && value[i] != LF
  }

  lemma {:induction false} CompareIsMatch(data: seq<byte>, at: nat, value: seq<byte>, i: nat)
    requires EndsLine(data) && OneLine(value) && i <= |value| && at + i <= |data| - 2
    ensures Compare(data, at, value, i) != Outside
    ensures Compare(data, at, value, i) == Same <==>
            at + |value| <= |data| && forall k | i <= k < |value| :: Lower(data[at + k]) == Lower(value[k])
    decreases |value| - i
  {
    if i < |value| {
      if Lower(data[at + i]) == Lower(value[i]) {
        assert data[at + i] != CR;
        CompareIsMatch(data, at, value, i + 1);
      }
    }
  }

  lemma {:induction false} SkipsNoMatch(data: seq<byte>, p: nat, value: seq<byte>)
    requires EndsLine(data) && OneLine(value) && p < |data| - 2
    ensures forall q: nat | p <= q < Skip(data, p, value[0]) :: !Matches(data, q, value)
    ensures Skip(data, p, value[0]) <= |data| - 2
    ensures Skip(data, p, value[0]) == |data| - 2 || data[Skip(data, p, value[0])] == value[0]
    decreases |data| - p
  {
    if data[p] != value[0] {
      if p + 1 < |data| - 2 {
        SkipsNoMatch(data, p + 1, value);
      }
    }
  }

  lemma {:induction false} FindFrom(data: seq<byte>, p: nat, value: seq<byte>)
    requires EndsLine(data) && OneLine(value) && p <= |data|
    requires forall q: nat | q < p :: !Matches(data, q, value)
    ensures IsFirst(data, value, Find(data, p, value))
    decreases |data| - p
  {
    if |data| - p <= 2 {
      forall q: nat | q >= p ensures !Matches(data, q, value) {
        NoMatchAtEnd(data, q, value);
      }
    } else {
      var q := Skip(data, p, value[0]);
      SkipsNoMatch(data, p, value);
      CompareIsMatch(data, q, value, 0);
      if Compare(data, q, value, 0) == Same {
        assert data[q] == value[0] by {
          NoMatchAtEnd(data, |data| - 2, value);
        }
      } else {
        FindFrom(data, q + 1, value);
      }
    }
  }

  lemma NoMatchAtEnd(data: seq<byte>, q: nat, value: seq<byte>)
    requires EndsLine(data) && OneLine(value) && q >= |data| - 2
    ensures !Matches(data, q, value)
    ensures Compare(data, |data| - 2, value, 0) == Different
  {
  }

  /** In data that ends with CRLF, find_data is a search for the first match, and reads nothing behind it. */
  lemma FindIsFirst(data: seq<byte>, value: seq<byte>)
    requires EndsLine(data) && OneLine(value)
    ensures IsFirst(data, value, Find(data, 0, value))
  {
    FindFrom(data, 0, value);
  }

  // ----- patch_http_url -----

  datatype Reading = Got(bytes: seq<byte>) | Past

  /** The host loop: up to a CR or 511 bytes, with those read already. */
  function HostFrom(data: seq<byte>, at: nat, read: seq<byte>): Reading
    decreases |data| - at
  {
    if at >= |data| then Past
    else if data[at] == CR || |read| >= HOST_MAX then Got(read)
    else HostFrom(data, at + 1, read + [data[at]])
  }

  /** The position behind the first occurrence of a word. */
  datatype Place = Behind(at: nat) | Nowhere | Lost

  /** The chain of searches from the k-th method on. */
  function WordFrom(data: seq<byte>, k: nat): Place
    requires k <= |METHODS|
    decreases |METHODS| - k
  {
    if k == |METHODS| then Nowhere
    else
      match Find(data, 0, METHODS[k])
      case FoundAt(p) => Behind(p + |METHODS[k]|)
      case NotFound => WordFrom(data, k + 1)
      case Stray => Lost
  }

  /** The chain of tests for "http:" */
  function SchemeAt(data: seq<byte>, at: nat, i: nat): Comparison
    requires i <= |HTTP_COLON|
    decreases |HTTP_COLON| - i
  {
    if i == |HTTP_COLON| then Same
    else if at + i >= |data| then Outside
    else if data[at + i] != HTTP_COLON[i] then Different
    else SchemeAt(data, at, i + 1)
  }

  function Insert(data: seq<byte>, at: nat, x: seq<byte>): seq<byte>
    requires at <= |data|
  {
    data[..at] + x + data[at..]
  }

  /** A new request, the null pointer, or a read behind the data. */
  datatype Rewrite = Rewritten(bytes: seq<byte>) | Untouched | Outrun

  function Patch(data: seq<byte>): Rewrite {
    match Find(data, 0, HOST)
    case Stray => Outrun
    case NotFound => Untouched
    case FoundAt(h) =>
      match HostFrom(data, h + |HOST|, [])
      case Past => Outrun
      case Got(host) =>
        match WordFrom(data, 0)
        case Lost => Outrun
        case Nowhere => Untouched
        case Behind(at) =>
          match SchemeAt(data, at, 0)
          case Outside => Outrun
          case Same => Untouched
          case Different => Rewritten(Insert(data, at, SCHEME + host))
  }

  method CopyHost(data: seq<byte>, at: nat, hostname: array<byte>) returns (length: nat)
    requires HostFrom(data, at, []) != Past && hostname.Length > HOST_MAX
    modifies hostname
    ensures length <= HOST_MAX && HostFrom(data, at, []) == Got(hostname[..length])
  {
    length := 0;
    while data[at + length] != CR && length < HOST_MAX
      invariant length <= HOST_MAX
      invariant HostFrom(data, at + length, hostname[..length]) == HostFrom(data, at, [])
      decreases HOST_MAX - length
    {
      ghost var read := hostname[..length];
      hostname[length] := data[at + length];
      length := length + 1;
      assert hostname[..length] == read + [data[at + length - 1]];
    }
  }

  /** The searches for the seven methods; the position behind the word, or -1. */
  method FindWord(data: seq<byte>) returns (at: int)
    requires WordFrom(data, 0) != Lost
    ensures WordFrom(data, 0) == if at < 0 then Nowhere else Behind(at)
  {
    var pos := FindData(data, METHODS[0]);
    if pos >= 0 {
      return pos + 4;
    }
    assert WordFrom(data, 1) == WordFrom(data, 0);
    pos := FindData(data, METHODS[1]);
    if pos >= 0 {
      return pos + 5;
    }
    assert WordFrom(data, 2) == WordFrom(data, 0);
    pos := FindData(data, METHODS[2]);
    if pos >= 0 {
      return pos + 4;
    }
    assert WordFrom(data, 3) == WordFrom(data, 0);
    pos := FindData(data, METHODS[3]);
    if pos >= 0 {
      return pos + 7;
    }
    assert WordFrom(data, 4) == WordFrom(data, 0);
    pos := FindData(data, METHODS[4]);
    if pos >= 0 {
      return pos + 5;
    }
    assert WordFrom(data, 5) == WordFrom(data, 0);
    pos := FindData(data, METHODS[5]);
    if pos >= 0 {
      return pos + 8;
    }
    assert WordFrom(data, 6) == WordFrom(data, 0);
    pos := FindData(data, METHODS[6]);
    if pos >= 0 {
      return pos + 6;
    }
    return -1;
  }

  /** data[at..at + 5] == "http:", byte by byte */
  method IsPatched(data: seq<byte>, at: nat) returns (same: bool)
    requires SchemeAt(data, at, 0) != Outside
    ensures same <==> SchemeAt(data, at, 0) == Same
  {
    same := data[at] == 0x68 && data[at + 1] == 0x74 && data[at + 2] == 0x74
            && data[at + 3] == 0x70 && data[at + 4] == 0x3A;
  }

  /** memcpy */
  method CopyTo(buffer: array<byte>, at: nat, src: seq<byte>)
    requires at + |src| <= buffer.Length
    modifies buffer
    ensures buffer[..at + |src|] == old(buffer[..at]) + src
  {
    var i := 0;
    while i < |src|
      invariant 0 <= i <= |src|
      invariant buffer[..at + i] == old(buffer[..at]) + src[..i]
    {
      buffer[at + i] := src[i];
      i := i + 1;
    }
  }

  /** The four copies */
  method Assemble(data: seq<byte>, pos1: nat, host: seq<byte>, buffer: array<byte>) returns (length: nat)
    requires pos1 <= |data| && |data| + |SCHEME| + |host| <= buffer.Length
    modifies buffer
    ensures length == |data| + |SCHEME| + |host| && buffer[..length] == Insert(data, pos1, SCHEME + host)
  {
    CopyTo(buffer, 0, data[..pos1]);
    CopyTo(buffer, pos1, SCHEME);
    CopyTo(buffer, pos1 + |SCHEME|, host);
    CopyTo(buffer, pos1 + |SCHEME| + |host|, data[pos1..]);
    length := |data| + |SCHEME| + |host|;
    assert data[..pos1] + SCHEME + host + data[pos1..] == Insert(data, pos1, SCHEME + host);
  }

  /** patch_http_url, where it reads no byte behind the data. */
  method PatchHttpUrl(data: seq<byte>, buffer: array<byte>) returns (patched: bool, length: nat)
    requires Patch(data) != Outrun && buffer.Length >= |data| + |SCHEME| + HOST_MAX
    modifies buffer
    ensures length <= buffer.Length
    ensures Patch(data) == if patched then Rewritten(buffer[..length]) else Untouched
  {
    var hostname := new byte[1024];
    var host := FindData(data, HOST);
    if host < 0 {
      return false, |data|;
    }
    var n := CopyHost(data, host + 6, hostname);
    var pos1 := FindWord(data);
    if pos1 < 0 {
      return false, |data|;
    }
    var already := IsPatched(data, pos1);
    if already {
      return false, |data|;
    }
    length := Assemble(data, pos1, hostname[..n], buffer);
    return true, length;
  }
}
