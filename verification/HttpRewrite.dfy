/** What the request-line rewrite does to a request in origin form (RFC 9112 section 3.2). */
module HttpRewrite {
  import opened Serial
  import opened Http

  // ----- no read outside -----

  lemma Words()
    ensures OneLine(HOST) && forall k: nat | k < |METHODS| :: OneLine(METHODS[k])
  {
  }

  lemma {:induction false} HostStays(data: seq<byte>, at: nat, read: seq<byte>)
    requires EndsLine(data) && at <= |data| - 2
    ensures HostFrom(data, at, read) != Past
    decreases |data| - at
  {
    if data[at] != CR && |read| < HOST_MAX {
      HostStays(data, at + 1, read + [data[at]]);
    }
  }

  lemma {:induction false} SchemeStays(data: seq<byte>, at: nat, i: nat)
    requires EndsLine(data) && i <= |HTTP_COLON| && at + i <= |data| - 2
    ensures SchemeAt(data, at, i) != Outside
    decreases |HTTP_COLON| - i
  {
    if i < |HTTP_COLON| && data[at + i] == HTTP_COLON[i] {
      SchemeStays(data, at, i + 1);
    }
  }

  /** The word that is found ends in front of the last CRLF. */
  lemma {:induction false} WordStays(data: seq<byte>, k: nat)
    requires EndsLine(data) && k <= |METHODS|
    ensures WordFrom(data, k) != Lost
    ensures WordFrom(data, k).Behind? ==> WordFrom(data, k).at <= |data| - 2
    decreases |METHODS| - k
  {
    if k < |METHODS| {
      Words();
      FindIsFirst(data, METHODS[k]);
      if Find(data, 0, METHODS[k]).FoundAt? {
        MatchStays(data, Find(data, 0, METHODS[k]).at, METHODS[k]);
      } else {
        WordStays(data, k + 1);
      }
    }
  }

  lemma MatchStays(data: seq<byte>, p: nat, value: seq<byte>)
    requires EndsLine(data) && OneLine(value) && Matches(data, p, value)
    ensures p + |value| <= |data| - 2
  {
    var last := |value| - 1;
    assert Lower(data[p + last]) == Lower(value[last]);
  }

  /** In data that ends with CRLF patch_http_url reads nothing behind it. */
  lemma PatchStaysInside(data: seq<byte>)
    requires EndsLine(data)
    ensures Patch(data) != Outrun
  {
    Words();
    FindIsFirst(data, HOST);
    if Find(data, 0, HOST).FoundAt? {
      var h := Find(data, 0, HOST).at;
      MatchStays(data, h, HOST);
      HostStays(data, h + |HOST|, []);
      WordStays(data, 0);
      if WordFrom(data, 0).Behind? {
        SchemeStays(data, WordFrom(data, 0).at, 0);
      }
    }
  }

  // ----- requests in origin form -----

  predicate SpaceFree(s: seq<byte>) { forall i | 0 <= i < |s| :: s[i] != SPACE }

  /** The k-th method and its space in front of a target that begins with a slash; the first "Host: " has
      this host behind it. */
  predicate OriginForm(data: seq<byte>, k: nat, host: seq<byte>) {
    && EndsLine(data)
    && k < |METHODS| && |METHODS[k]| < |data|
    && data[..|METHODS[k]|] == METHODS[k] && data[|METHODS[k]|] == SLASH
    && |host| <= 511 && SpaceFree(host) && CR !in host
    && Find(data, 0, HOST).FoundAt?
    && var at := Find(data, 0, HOST).at + |HOST|;
       at + |host| < |data| && data[at..at + |host|] == host && data[at + |host|] == CR
  }

  lemma {:induction false} HostIsRead(data: seq<byte>, at: nat, read: seq<byte>, host: seq<byte>)
    requires at + |host| < |data| && data[at..at + |host|] == host && data[at + |host|] == CR
    requires |read| + |host| <= HOST_MAX && CR !in host
    ensures HostFrom(data, at, read) == Got(read + host)
    decreases |host|
  {
    if host == [] {
      assert read + [] == read;
    } else {
      assert data[at] == host[0];
      assert data[at + 1..at + |host|] == host[1..];
      HostIsRead(data, at + 1, read + [host[0]], host[1..]);
      assert read + [host[0]] + host[1..] == read + host;
    }
  }

  /** A method listed in front of the k-th occurs somewhere in the data. */
  ghost predicate EarlierWord(data: seq<byte>, k: nat)
    requires k < |METHODS|
  {
    exists j: nat, q: nat :: j < k && Matches(data, q, METHODS[j])
  }

  lemma {:induction false} SkipsAbsent(data: seq<byte>, j: nat, k: nat)
    requires EndsLine(data) && j <= k < |METHODS| && !EarlierWord(data, k)
    ensures WordFrom(data, j) == WordFrom(data, k)
    decreases k - j
  {
    if j < k {
      Words();
      FindIsFirst(data, METHODS[j]);
      SkipsAbsent(data, j + 1, k);
    }
  }

  lemma StartMatches(data: seq<byte>, k: nat)
    requires k < |METHODS| && |METHODS[k]| <= |data| && data[..|METHODS[k]|] == METHODS[k]
    ensures Matches(data, 0, METHODS[k])
  {
    var m := METHODS[k];
    assert forall i | 0 <= i < |m| :: data[i] == data[..|m|][i];
  }

  /** Without an earlier word the method itself is the word that is found. */
  lemma MethodIsFound(data: seq<byte>, k: nat)
    requires EndsLine(data) && k < |METHODS| && |METHODS[k]| <= |data| && data[..|METHODS[k]|] == METHODS[k]
    requires !EarlierWord(data, k)
    ensures WordFrom(data, 0) == Behind(|METHODS[k]|)
  {
    SkipsAbsent(data, 0, k);
    Words();
    FindIsFirst(data, METHODS[k]);
    StartMatches(data, k);
  }

  /** A word whose only space is its last character, and without a slash. */
  predicate SpaceLast(v: seq<byte>) {
    && v != [] && v[|v| - 1] == SPACE
    && forall i | 0 <= i < |v| :: v[i] != SLASH && (i < |v| - 1 ==> v[i] != SPACE)
  }

  lemma MethodsEndWithSpace()
    ensures forall k: nat | k < |METHODS| :: SpaceLast(METHODS[k])
  {
  }

  lemma InMatch(b: seq<byte>, q: nat, v: seq<byte>, s: nat)
    requires v != [] && Matches(b, q, v) && q <= s < q + |v|
    ensures Lower(b[s]) == Lower(v[s - q])
  {
    if s == q {
    } else {
      assert Lower(b[q + (s - q)]) == Lower(v[s - q]);
    }
  }

  /** A space at s is not in front of the end of such a word, and a slash is not in it at all. */
  lemma NotInside(b: seq<byte>, q: nat, v: seq<byte>, s: nat)
    requires SpaceLast(v) && Matches(b, q, v) && s < |b|
    ensures b[s] == SPACE ==> s < q || s >= q + |v| - 1
    ensures b[s] == SLASH ==> s < q || s >= q + |v|
    ensures b[q + |v| - 1] == SPACE
  {
    InMatch(b, q, v, q + |v| - 1);
    if q <= s < q + |v| {
      InMatch(b, q, v, s);
    }
  }

  /** An earlier word stands behind the method, not in it. */
  lemma WordIsBehindMethod(data: seq<byte>, k: nat, j: nat, q: nat)
    requires j < k < |METHODS| && |METHODS[k]| <= |data| && data[..|METHODS[k]|] == METHODS[k]
    requires Matches(data, q, METHODS[j])
    ensures q + |METHODS[j]| > |METHODS[k]|
  {
    var w, m := METHODS[j], METHODS[k];
    assert forall i | 0 <= i < |m| :: data[i] == data[..|m|][i];
    MethodsEndWithSpace();
    NotInside(data, q, w, |m| - 1);
    InMatch(data, q, w, q + |w| - 2);
    InMatch(data, q, w, q + |w| - 3);
  }

  lemma {:induction false} SomeWordIsFound(data: seq<byte>, j: nat, k: nat)
    requires EndsLine(data) && j <= k < |METHODS| && |METHODS[k]| <= |data| && data[..|METHODS[k]|] == METHODS[k]
    requires exists i: nat, q: nat :: j <= i < k && Matches(data, q, METHODS[i])
    ensures WordFrom(data, j).Behind? && WordFrom(data, j).at > |METHODS[k]|
    decreases k - j
  {
    Words();
    FindIsFirst(data, METHODS[j]);
    if Find(data, 0, METHODS[j]).FoundAt? {
      WordIsBehindMethod(data, k, j, Find(data, 0, METHODS[j]).at);
    } else {
      SomeWordIsFound(data, j + 1, k);
    }
  }

  /** The rewrite puts "http://" and the host exactly behind the method if and only if no method that is tried
      earlier occurs anywhere in the data. */
  lemma RewritesTheTarget(data: seq<byte>, k: nat, host: seq<byte>)
    requires OriginForm(data, k, host)
    ensures Patch(data) == Rewritten(METHODS[k] + SCHEME + host + data[|METHODS[k]|..]) <==> !EarlierWord(data, k)
  {
    var a, x := |METHODS[k]|, SCHEME + host;
    PatchOf(data, k, host);
    assert METHODS[k] + SCHEME + host + data[a..] == Insert(data, a, x);
    if EarlierWord(data, k) {
      SomeWordIsFound(data, 0, k);
      WordStays(data, 0);
      InsertedElsewhere(data, a, WordFrom(data, 0).at, x);
    } else {
      MethodIsFound(data, k);
      assert SchemeAt(data, a, 0) == Different;
    }
  }

  /** The rewrite of a request, up to the word that is found. */
  lemma PatchOf(data: seq<byte>, k: nat, host: seq<byte>)
    requires OriginForm(data, k, host)
    ensures WordFrom(data, 0).Behind? && SchemeAt(data, WordFrom(data, 0).at, 0) == Different ==>
            Patch(data) == Rewritten(Insert(data, WordFrom(data, 0).at, SCHEME + host))
    ensures WordFrom(data, 0).Behind? && SchemeAt(data, WordFrom(data, 0).at, 0) != Different ==>
              !Patch(data).Rewritten?
  {
    HostIsRead(data, Find(data, 0, HOST).at + |HOST|, [], host);
    assert [] + host == host;
  }

  lemma InsertedElsewhere(data: seq<byte>, a: nat, b: nat, x: seq<byte>)
    requires a < b <= |data| && x != [] && x[0] != data[a]
    ensures Insert(data, a, x) != Insert(data, b, x)
  {
    assert Insert(data, a, x)[a] == x[0] && Insert(data, b, x)[a] == data[a];
  }

  // ----- undoing the rewrite -----

  function Delete(b: seq<byte>, at: nat, n: nat): seq<byte>
    requires at + n <= |b|
  {
    b[..at] + b[at + n..]
  }

  /** Whatever is rewritten: taking out "http://" and the host gives back the data, and the length reported is
      the old one plus theirs. */
  lemma RewriteIsUndone(data: seq<byte>)
    requires Patch(data).Rewritten?
    ensures var b := Patch(data).bytes;
            var at := WordFrom(data, 0).at;
            var host := HostFrom(data, Find(data, 0, HOST).at + |HOST|, []).bytes;
            && |b| == |data| + |SCHEME + host| && at <= |data|
            && b[at..at + |SCHEME + host|] == SCHEME + host
            && Delete(b, at, |SCHEME + host|) == data
  {
  }

  // ----- a second application -----

  lemma Inserted(data: seq<byte>, a: nat, x: seq<byte>)
    requires a <= |data|
    ensures forall i | 0 <= i < a :: Insert(data, a, x)[i] == data[i]
    ensures forall i | a <= i < a + |x| :: Insert(data, a, x)[i] == x[i - a]
    ensures forall i | a + |x| <= i < |data| + |x| :: Insert(data, a, x)[i] == data[i - |x|]
  {
  }

  /** The method tried j-th and those before it are not found. */
  predicate TriedBefore(data: seq<byte>, j: nat) {
    j < |METHODS| && forall i | 0 <= i <= j :: Find(data, 0, METHODS[i]) == NotFound
  }

  /** The last r bytes of the host and the bytes at `at` spell the word v together. */
  predicate Joins(data: seq<byte>, at: nat, host: seq<byte>, v: seq<byte>, r: nat) {
    && 0 < r < |v| && r <= |host| && at + (|v| - r) <= |data|
    && Matches(host[|host| - r..] + data[at..at + (|v| - r)], 0, v)
  }

  /** Of the methods that were tried and not found, the j-th is the first that is spelled so, and with the most bytes of
      the host. */
  predicate FirstJoin(data: seq<byte>, at: nat, host: seq<byte>, j: nat, r: nat) {
    && TriedBefore(data, j) && Joins(data, at, host, METHODS[j], r)
    && (forall i, s: nat | 0 <= i < j && s < |METHODS[i]| :: !Joins(data, at, host, METHODS[i], s))
    && (forall s: nat | r < s < |METHODS[j]| :: !Joins(data, at, host, METHODS[j], s))
  }

  /** The word that is found, and that those before it are not. */
  lemma {:induction false} FoundWord(data: seq<byte>, j: nat) returns (k: nat)
    requires j <= |METHODS| && WordFrom(data, j).Behind?
    requires forall i | 0 <= i < j :: Find(data, 0, METHODS[i]) == NotFound
    ensures k < |METHODS| && |METHODS[k]| <= WordFrom(data, j).at
    ensures Find(data, 0, METHODS[k]) == FoundAt(WordFrom(data, j).at - |METHODS[k]|)
    ensures forall i | 0 <= i < k :: Find(data, 0, METHODS[i]) == NotFound
    decreases |METHODS| - j
  {
    if Find(data, 0, METHODS[j]).FoundAt? {
      k := j;
    } else {
      k := FoundWord(data, j + 1);
    }
  }

  lemma {:induction false} HostText(data: seq<byte>, at: nat, read: seq<byte>) returns (n: nat)
    requires HostFrom(data, at, read).Got?
    ensures at + n <= |data| && HostFrom(data, at, read) == Got(read + data[at..at + n])
    decreases |data| - at
  {
    if data[at] == CR || |read| >= HOST_MAX {
      n := 0;
      assert read + [] == read;
    } else {
      var m := HostText(data, at + 1, read + [data[at]]);
      n := m + 1;
      assert read + [data[at]] + data[at + 1..at + n] == read + data[at..at + n];
    }
  }

  /** The text put in: the scheme, and a host that stands in the data. */
  predicate PutIn(data: seq<byte>, at: nat, x: seq<byte>, from: nat) {
    && 0 < at <= |data| && data[at - 1] == SPACE
    && |x| >= |SCHEME| && x[..|SCHEME|] == SCHEME
    && from + (|x| - |SCHEME|) <= |data| && x[|SCHEME|..] == data[from..from + (|x| - |SCHEME|)]
  }

  lemma InsertedParts(data: seq<byte>, at: nat, x: seq<byte>)
    requires at <= |data|
    ensures var b := Insert(data, at, x);
            |b| == |data| + |x| && b[..at] == data[..at] && b[at..at + |x|] == x && b[at + |x|..] == data[at..]
  {
  }

  lemma SubSlice(s: seq<byte>, lo: nat, hi: nat, i: nat, j: nat)
    requires lo <= hi <= |s| && i <= j <= hi - lo
    ensures s[lo..hi][i..j] == s[lo + i..lo + j]
  {
    var x, y := s[lo..hi][i..j], s[lo + i..lo + j];
    assert forall k | 0 <= k < |x| :: x[k] == s[lo + i + k] == y[k];
  }

  lemma MovedMatch(b: seq<byte>, q: nat, data: seq<byte>, p: nat, v: seq<byte>)
    requires v != [] && Matches(b, q, v) && p + |v| <= |data| && data[p..p + |v|] == b[q..q + |v|]
    ensures Matches(data, p, v)
  {
    assert data[p..p + |v|][0] == b[q..q + |v|][0];
    forall i | 1 <= i < |v| ensures Lower(data[p + i]) == Lower(v[i]) {
      assert data[p..p + |v|][i] == b[q..q + |v|][i];
      assert Lower(b[q + i]) == Lower(v[i]);
    }
  }

  lemma SamePrefix(b: seq<byte>, data: seq<byte>, at: nat, i: nat, j: nat)
    requires i <= j <= at <= |b| && at <= |data| && b[..at] == data[..at]
    ensures b[i..j] == data[i..j]
  {
    assert forall k | 0 <= k < at :: b[k] == b[..at][k] == data[..at][k] == data[k];
  }

  lemma InFront(data: seq<byte>, at: nat, x: seq<byte>, v: seq<byte>, q: nat)
    requires at <= |data| && v != [] && Matches(Insert(data, at, x), q, v) && q + |v| <= at
    ensures Matches(data, q, v)
  {
    var b := Insert(data, at, x);
    InsertedParts(data, at, x);
    SamePrefix(b, data, at, q, q + |v|);
    assert data[q..q + |v|] == b[q..q + |v|];
    MovedMatch(b, q, data, q, v);
  }

  lemma Behindhand(data: seq<byte>, at: nat, x: seq<byte>, v: seq<byte>, q: nat)
    requires at <= |data| && v != [] && Matches(Insert(data, at, x), q, v) && q >= at + |x|
    ensures Matches(data, q - |x|, v)
  {
    var b := Insert(data, at, x);
    InsertedParts(data, at, x);
    SameRest(b, data, at + |x|, at, q - at - |x|, q - at - |x| + |v|);
    MovedMatch(b, q, data, q - |x|, v);
  }

  /** No word is in the scheme or begins in it: it has no space and ends with a slash. */
  lemma NotInScheme(b: seq<byte>, at: nat, x: seq<byte>, v: seq<byte>, q: nat)
    requires SpaceLast(v) && Matches(b, q, v) && at <= q < at + |x| && at + |x| <= |b| && b[at..at + |x|] == x
    requires |x| >= |SCHEME| && x[..|SCHEME|] == SCHEME
    ensures q >= at + |SCHEME|
  {
    forall i | at <= i < at + |SCHEME| ensures b[i] == SCHEME[i - at] {
      assert b[at..at + |x|][i - at] == x[..|SCHEME|][i - at];
    }
    assert b[at + 6] == SLASH;
    NotInside(b, q, v, at + 6);
  }

  lemma InHost(data: seq<byte>, b: seq<byte>, at: nat, x: seq<byte>, from: nat, v: seq<byte>, i: nat)
    requires PutIn(data, at, x, from) && at + |x| <= |b| && b[at..at + |x|] == x
    requires v != [] && Matches(b, at + (|SCHEME| + i), v) && i + |v| <= |x| - |SCHEME|
    ensures Matches(data, from + i, v)
  {
    var q := at + (|SCHEME| + i);
    HostSlice(data, x, from, i, i + |v|);
    SubSlice(b, at, at + |x|, |SCHEME| + i, |SCHEME| + i + |v|);
    MovedMatch(b, q, data, from + i, v);
  }

  lemma HostSlice(data: seq<byte>, x: seq<byte>, from: nat, i: nat, j: nat)
    requires |x| >= |SCHEME| && i <= j <= |x| - |SCHEME| && from + (|x| - |SCHEME|) <= |data|
    requires x[|SCHEME|..] == data[from..from + (|x| - |SCHEME|)]
    ensures x[|SCHEME| + i..|SCHEME| + j] == data[from + i..from + j]
  {
    assert x[|SCHEME|..|x|] == x[|SCHEME|..];
    SubSlice(x, |SCHEME|, |x|, i, j);
    SubSlice(data, from, from + (|x| - |SCHEME|), i, j);
  }

  /** A word in the rewritten data is in front of the text put in, behind it, in its host, or across its end. */
  lemma WhereMatches(data: seq<byte>, at: nat, x: seq<byte>, from: nat, v: seq<byte>, q: nat)
    requires PutIn(data, at, x, from) && SpaceLast(v) && Matches(Insert(data, at, x), q, v)
    ensures || (q + |v| <= at && Matches(data, q, v))
            || (q >= at + |x| && Matches(data, q - |x|, v))
            || (q >= at + |SCHEME| && q + |v| <= at + |x| && Matches(data, from + (q - at - |SCHEME|), v))
            || (at <= q < at + |x| < q + |v|)
  {
    var b := Insert(data, at, x);
    InsertedParts(data, at, x);
    WherePlaced(data, b, at, x, from, v, q);
    if q >= at + |x| {
      Behindhand(data, at, x, v, q);
    } else if q < at {
      InFront(data, at, x, v, q);
    } else if q + |v| <= at + |x| {
      InHost(data, b, at, x, from, v, q - at - |SCHEME|);
    }
  }

  /** A word does not stand across the beginning of the text put in, nor in its scheme. */
  lemma WherePlaced(data: seq<byte>, b: seq<byte>, at: nat, x: seq<byte>, from: nat, v: seq<byte>, q: nat)
    requires PutIn(data, at, x, from) && SpaceLast(v) && Matches(b, q, v)
    requires |b| == |data| + |x| && b[..at] == data[..at] && b[at..at + |x|] == x
    ensures q + |v| <= at || q >= at + |x| || q >= at + |SCHEME|
  {
    assert b[at - 1] == b[..at][at - 1];
    NotInside(b, q, v, at - 1);
    if at <= q < at + |x| { NotInScheme(b, at, x, v, q); }
  }

  /** What the data is before and after, for the rest of the proof. */
  predicate Again(data: seq<byte>, k: nat, at: nat, x: seq<byte>, from: nat) {
    && EndsLine(data) && k < |METHODS| && PutIn(data, at, x, from) && at <= |data| - 2
    && Find(data, 0, HOST).FoundAt? && at >= |METHODS[k]| && Find(data, 0, METHODS[k]) == FoundAt(at - |METHODS[k]|)
    && forall i | 0 <= i < k :: Find(data, 0, METHODS[i]) == NotFound
  }

  lemma InsertEndsLine(data: seq<byte>, at: nat, x: seq<byte>)
    requires EndsLine(data) && at <= |data| - 2
    ensures EndsLine(Insert(data, at, x))
  {
    InsertedParts(data, at, x);
    Inserted(data, at, x);
  }

  lemma KeptMatch(data: seq<byte>, at: nat, x: seq<byte>, v: seq<byte>, p: nat)
    requires at <= |data| && v != [] && Matches(data, p, v) && (p + |v| <= at || p >= at)
    ensures Matches(Insert(data, at, x), if p + |v| <= at then p else p + |x|, v)
  {
    var b := Insert(data, at, x);
    InsertedParts(data, at, x);
    if p + |v| <= at {
      SamePrefix(b, data, at, p, p + |v|);
      MovedMatch(data, p, b, p, v);
    } else {
      SameRest(b, data, at + |x|, at, p - at, p - at + |v|);
      MovedMatch(data, p, b, p + |x|, v);
    }
  }

  lemma SameRest(b: seq<byte>, data: seq<byte>, from: nat, at: nat, i: nat, j: nat)
    requires from <= |b| && at <= |data| && b[from..] == data[at..] && i <= j <= |b| - from
    ensures |data| - at == |b| - from && b[from + i..from + j] == data[at + i..at + j]
  {
    assert |b[from..]| == |data[at..]|;
    SubSlice(b, from, |b|, i, j);
    SubSlice(data, at, |data|, i, j);
    assert b[from..|b|] == b[from..] && data[at..|data|] == data[at..];
  }

  /** There still is a host. */
  lemma HostStaysFound(data: seq<byte>, k: nat, at: nat, x: seq<byte>, from: nat)
    requires Again(data, k, at, x, from)
    ensures Find(Insert(data, at, x), 0, HOST).FoundAt?
  {
    var b := Insert(data, at, x);
    Words();
    InsertEndsLine(data, at, x);
    FindIsFirst(data, HOST);
    FindIsFirst(b, HOST);
    var h := Find(data, 0, HOST).at;
    NotInside(data, h, HOST, at - 1);
    KeptMatch(data, at, x, HOST, h);
  }

  /** What stands across the end of the text put in is the end of the host and the data behind the word. */
  lemma AcrossText(data: seq<byte>, at: nat, x: seq<byte>, len: nat, r: nat)
    requires at <= |data| && |x| >= |SCHEME| && 0 < r < len && r <= |x| - |SCHEME| && at + (len - r) <= |data|
    ensures var host, b, p := x[|SCHEME|..], Insert(data, at, x), at + |x| - r;
            p + len <= |b| && b[p..p + len] == host[|host| - r..] + data[at..at + (len - r)]
  {
    var host, b, end := x[|SCHEME|..], Insert(data, at, x), at + |x|;
    InsertedParts(data, at, x);
    SubSlice(b, at, end, |x| - r, |x|);
    SameRest(b, data, end, at, 0, len - r);
    assert x[|x| - r..|x|] == host[|host| - r..];
    assert b[end - r..end - r + len] == b[end - r..end] + b[end..end - r + len];
  }

  /** Of the methods tried before, only those spelled across the end are new. */
  lemma OnlyJoins(data: seq<byte>, k: nat, at: nat, x: seq<byte>, from: nat, j: nat, q: nat)
    requires Again(data, k, at, x, from) && j < k && Matches(Insert(data, at, x), q, METHODS[j])
    ensures q < at + |x| && Joins(data, at, x[|SCHEME|..], METHODS[j], at + |x| - q)
  {
    var v, b, end := METHODS[j], Insert(data, at, x), at + |x|;
    Words();
    MethodsEndWithSpace();
    FindIsFirst(data, v);
    WhereMatches(data, at, x, from, v, q);
    InsertedParts(data, at, x);
    NotInScheme(b, at, x, v, q);
    SpelledAcross(data, at, x, v, end - q);
  }

  lemma SpelledAcross(data: seq<byte>, at: nat, x: seq<byte>, v: seq<byte>, r: nat)
    requires at <= |data| && |x| >= |SCHEME| && 0 < r < |v| && r <= |x| - |SCHEME|
    requires Matches(Insert(data, at, x), at + |x| - r, v)
    ensures Joins(data, at, x[|SCHEME|..], v, r)
  {
    var host := x[|SCHEME|..];
    var w := host[|host| - r..] + data[at..at + (|v| - r)];
    AcrossText(data, at, x, |v|, r);
    assert w[0..|v|] == w;
    MovedMatch(Insert(data, at, x), at + |x| - r, w, 0, v);
  }

  lemma JoinMatches(data: seq<byte>, at: nat, x: seq<byte>, v: seq<byte>, r: nat)
    requires at <= |data| && |x| >= |SCHEME| && Joins(data, at, x[|SCHEME|..], v, r)
    ensures Matches(Insert(data, at, x), at + |x| - r, v)
  {
    var host := x[|SCHEME|..];
    var w := host[|host| - r..] + data[at..at + (|v| - r)];
    AcrossText(data, at, x, |v|, r);
    assert w[0..|v|] == w;
    MovedMatch(w, 0, Insert(data, at, x), at + |x| - r, v);
  }

  /** The method found is still found where it was. */
  lemma SameMethodFirst(data: seq<byte>, k: nat, at: nat, x: seq<byte>, from: nat)
    requires Again(data, k, at, x, from)
    ensures Find(Insert(data, at, x), 0, METHODS[k]) == FoundAt(at - |METHODS[k]|)
  {
    var b, v := Insert(data, at, x), METHODS[k];
    var p := at - |v|;
    Words();
    MethodsEndWithSpace();
    InsertEndsLine(data, at, x);
    FindIsFirst(data, v);
    FindIsFirst(b, v);
    KeptMatch(data, at, x, v, p);
    forall q: nat | q < p && Matches(b, q, v) ensures false {
      WhereMatches(data, at, x, from, v, q);
    }
  }

  lemma {:induction false} WordsAbsent(b: seq<byte>, j: nat, k: nat)
    requires j <= k < |METHODS| && Find(b, 0, METHODS[k]).FoundAt?
    requires forall i | j <= i < k :: Find(b, 0, METHODS[i]) == NotFound
    ensures WordFrom(b, j) == Behind(Find(b, 0, METHODS[k]).at + |METHODS[k]|)
    decreases k - j
  {
    if j < k { WordsAbsent(b, j + 1, k); }
  }

  lemma {:induction false} SomeWord(b: seq<byte>, j: nat, k: nat)
    requires EndsLine(b) && j <= k < |METHODS| && Find(b, 0, METHODS[k]).FoundAt?
    ensures WordFrom(b, j).Behind?
    decreases k - j
  {
    Words();
    FindIsFirst(b, METHODS[j]);
    if j < k && Find(b, 0, METHODS[j]) == NotFound { SomeWord(b, j + 1, k); }
  }

  /** The first word that is spelled is found first. */
  lemma JoinIsFound(data: seq<byte>, k: nat, at: nat, x: seq<byte>, from: nat, j: nat, r: nat)
    requires Again(data, k, at, x, from) && FirstJoin(data, at, x[|SCHEME|..], j, r)
    ensures WordFrom(Insert(data, at, x), 0) == Behind(at + (|METHODS[j]| - r) + |x|)
  {
    var b, v, p := Insert(data, at, x), METHODS[j], at + |x| - r;
    assert j < k;
    InsertEndsLine(data, at, x);
    Words();
    forall i | 0 <= i < j ensures Find(b, 0, METHODS[i]) == NotFound {
      NotSpelled(data, k, at, x, from, i);
    }
    FindIsFirst(b, v);
    JoinMatches(data, at, x, v, r);
    forall q: nat | q < p && Matches(b, q, v) ensures false {
      OnlyJoins(data, k, at, x, from, j, q);
    }
    WordsAbsent(b, 0, j);
  }

  lemma NotSpelled(data: seq<byte>, k: nat, at: nat, x: seq<byte>, from: nat, i: nat)
    requires Again(data, k, at, x, from) && i < k
    requires forall s: nat | s < |METHODS[i]| :: !Joins(data, at, x[|SCHEME|..], METHODS[i], s)
    ensures Find(Insert(data, at, x), 0, METHODS[i]) == NotFound
  {
    var b := Insert(data, at, x);
    InsertEndsLine(data, at, x);
    Words();
    FindIsFirst(b, METHODS[i]);
    if Find(b, 0, METHODS[i]).FoundAt? {
      OnlyJoins(data, k, at, x, from, i, Find(b, 0, METHODS[i]).at);
    }
  }

  /** Behind the text put in nothing has changed. */
  lemma {:induction false} SchemeMoves(data: seq<byte>, at: nat, x: seq<byte>, p: nat, i: nat)
    requires at <= |data| && p >= at && i <= |HTTP_COLON|
    ensures SchemeAt(Insert(data, at, x), p + |x|, i) == SchemeAt(data, p, i)
    decreases |HTTP_COLON| - i
  {
    if i < |HTTP_COLON| {
      Inserted(data, at, x);
      SchemeMoves(data, at, x, p, i + 1);
    }
  }

  lemma SameWordFound(data: seq<byte>, k: nat, at: nat, x: seq<byte>, from: nat)
    requires Again(data, k, at, x, from)
    requires forall i, s: nat | 0 <= i < k && s < |METHODS[i]| :: !Joins(data, at, x[|SCHEME|..], METHODS[i], s)
    ensures WordFrom(Insert(data, at, x), 0) == Behind(at)
  {
    var b := Insert(data, at, x);
    SameMethodFirst(data, k, at, x, from);
    forall i | 0 <= i < k ensures Find(b, 0, METHODS[i]) == NotFound {
      NotSpelled(data, k, at, x, from, i);
    }
    WordsAbsent(b, 0, k);
  }

  /** If some method is spelled across the end there is a first one. */
  lemma {:induction false} SomeFirstJoin(data: seq<byte>, at: nat, host: seq<byte>, j: nat, r: nat)
    requires TriedBefore(data, j) && Joins(data, at, host, METHODS[j], r)
    ensures exists i: nat, s: nat :: FirstJoin(data, at, host, i, s)
    decreases j, |METHODS[j]| - r
  {
    if i, s: nat :| 0 <= i < j && s < |METHODS[i]| && Joins(data, at, host, METHODS[i], s) {
      SomeFirstJoin(data, at, host, i, s);
    } else if s: nat :| r < s < |METHODS[j]| && Joins(data, at, host, METHODS[j], s) {
      SomeFirstJoin(data, at, host, j, s);
    } else {
      assert FirstJoin(data, at, host, j, r);
    }
  }

  lemma UntouchedIf(b: seq<byte>)
    requires EndsLine(b) && Find(b, 0, HOST).FoundAt? && WordFrom(b, 0).Behind?
    ensures Patch(b) == Untouched <==> SchemeAt(b, WordFrom(b, 0).at, 0) == Same
  {
    PatchStaysInside(b);
  }

  lemma SchemePutIn(data: seq<byte>, at: nat, x: seq<byte>, from: nat)
    requires PutIn(data, at, x, from)
    ensures SchemeAt(Insert(data, at, x), at, 0) == Same
  {
    var b := Insert(data, at, x);
    InsertedParts(data, at, x);
    SubSlice(b, at, at + |x|, 0, |HTTP_COLON|);
    assert x[0..|HTTP_COLON|] == x[..|SCHEME|][0..|HTTP_COLON|];
    SchemeFound(b, at, 0);
  }

  /** The host that a rewrite puts in. */
  function HostOf(data: seq<byte>): seq<byte>
    requires Patch(data).Rewritten?
  {
    HostFrom(data, Find(data, 0, HOST).at + |HOST|, []).bytes
  }

  /** If no method is spelled by the end of the host and the data at `at`, the second rewrite leaves the request
      alone. If one is, it does so exactly when "http:" follows the first one. */
  ghost predicate SecondDecided(data: seq<byte>, at: nat, host: seq<byte>, untouched: bool) {
    && ((forall j: nat, r: nat :: !FirstJoin(data, at, host, j, r)) ==> untouched)
    && (forall j: nat, r: nat | FirstJoin(data, at, host, j, r) ::
          untouched <==> SchemeAt(data, at + (|METHODS[j]| - r), 0) == Same)
  }

  /** For all data that ends with CRLF and is rewritten: whether a second rewrite leaves it alone is decided by the
      methods that were tried and not found, the end of the host, and the data behind the method that was found. */
  lemma SecondRewriteExactly(data: seq<byte>)
    requires EndsLine(data) && Patch(data).Rewritten?
    ensures SecondDecided(data, WordFrom(data, 0).at, HostOf(data), Patch(Patch(data).bytes) == Untouched)
  {
    var k, x, from := FirstRewrite(data);
    SecondDecides(data, k, WordFrom(data, 0).at, x, from);
  }

  lemma SecondDecides(data: seq<byte>, k: nat, at: nat, x: seq<byte>, from: nat)
    requires Again(data, k, at, x, from)
    ensures SecondDecided(data, at, x[|SCHEME|..], Patch(Insert(data, at, x)) == Untouched)
  {
    var place, untouched := SecondOutcome(data, k, at, x, from);
    Decide(data, at, x, from, place, untouched);
  }

  lemma SecondOutcome(data: seq<byte>, k: nat, at: nat, x: seq<byte>, from: nat) returns (place: Place, untouched: bool)
    requires Again(data, k, at, x, from)
    ensures untouched == (Patch(Insert(data, at, x)) == Untouched)
    ensures PlacedAt(data, at, x[|SCHEME|..], |x|, place) && place.Behind?
    ensures untouched <==> SchemeAt(Insert(data, at, x), place.at, 0) == Same
  {
    var b := Insert(data, at, x);
    place, untouched := WordFrom(b, 0), Patch(b) == Untouched;
    WordPlaced(data, k, at, x, from);
    SomeWordFound(data, k, at, x, from);
    WholeOutcome(data, k, at, x, from);
  }

  lemma WholeOutcome(data: seq<byte>, k: nat, at: nat, x: seq<byte>, from: nat)
    requires Again(data, k, at, x, from) && WordFrom(Insert(data, at, x), 0).Behind?
    ensures var b := Insert(data, at, x); Patch(b) == Untouched <==> SchemeAt(b, WordFrom(b, 0).at, 0) == Same
  {
    InsertEndsLine(data, at, x);
    HostStaysFound(data, k, at, x, from);
    UntouchedIf(Insert(data, at, x));
  }

  /** Where the second rewrite finds its word: behind the first method that is spelled, or where the first one did. */
  ghost predicate PlacedAt(data: seq<byte>, at: nat, host: seq<byte>, n: nat, place: Place) {
    && (forall j: nat, r: nat | FirstJoin(data, at, host, j, r) :: place == Behind(at + (|METHODS[j]| - r) + n))
    && ((forall j: nat, r: nat :: !FirstJoin(data, at, host, j, r)) ==> place == Behind(at))
  }

  lemma WordPlaced(data: seq<byte>, k: nat, at: nat, x: seq<byte>, from: nat)
    requires Again(data, k, at, x, from)
    ensures PlacedAt(data, at, x[|SCHEME|..], |x|, WordFrom(Insert(data, at, x), 0))
  {
    var host := x[|SCHEME|..];
    forall j: nat, r: nat | FirstJoin(data, at, host, j, r)
      ensures WordFrom(Insert(data, at, x), 0) == Behind(at + (|METHODS[j]| - r) + |x|)
    {
      JoinIsFound(data, k, at, x, from, j, r);
    }
    if forall j: nat, r: nat :: !FirstJoin(data, at, host, j, r) {
      NoJoin(data, k, at, host);
      SameWordFound(data, k, at, x, from);
    }
  }

  lemma SomeWordFound(data: seq<byte>, k: nat, at: nat, x: seq<byte>, from: nat)
    requires Again(data, k, at, x, from)
    ensures WordFrom(Insert(data, at, x), 0).Behind?
  {
    InsertEndsLine(data, at, x);
    SameMethodFirst(data, k, at, x, from);
    SomeWord(Insert(data, at, x), 0, k);
  }

  lemma Decide(data: seq<byte>, at: nat, x: seq<byte>, from: nat, place: Place, untouched: bool)
    requires PutIn(data, at, x, from) && PlacedAt(data, at, x[|SCHEME|..], |x|, place) && place.Behind?
    requires untouched <==> SchemeAt(Insert(data, at, x), place.at, 0) == Same
    ensures SecondDecided(data, at, x[|SCHEME|..], untouched)
  {
    var host := x[|SCHEME|..];
    forall j: nat, r: nat | FirstJoin(data, at, host, j, r)
      ensures untouched <==> SchemeAt(data, at + (|METHODS[j]| - r), 0) == Same
    {
      DecideAt(data, at, x, at + (|METHODS[j]| - r), place, untouched);
    }
    if forall j: nat, r: nat :: !FirstJoin(data, at, host, j, r) { SchemePutIn(data, at, x, from); }
  }

  lemma DecideAt(data: seq<byte>, at: nat, x: seq<byte>, p: nat, place: Place, untouched: bool)
    requires at <= |data| && p >= at && place == Behind(p + |x|)
    requires untouched <==> SchemeAt(Insert(data, at, x), place.at, 0) == Same
    ensures untouched <==> SchemeAt(data, p, 0) == Same
  {
    SchemeMoves(data, at, x, p, 0);
  }

  lemma NoJoin(data: seq<byte>, k: nat, at: nat, host: seq<byte>)
    requires k < |METHODS| && forall i | 0 <= i < k :: Find(data, 0, METHODS[i]) == NotFound
    requires forall j: nat, r: nat :: !FirstJoin(data, at, host, j, r)
    ensures forall i, s: nat | 0 <= i < k && s < |METHODS[i]| :: !Joins(data, at, host, METHODS[i], s)
  {
    forall i, s: nat | 0 <= i < k && s < |METHODS[i]| ensures !Joins(data, at, host, METHODS[i], s) {
      if Joins(data, at, host, METHODS[i], s) { SomeFirstJoin(data, at, host, i, s); }
    }
  }

  lemma FirstRewrite(data: seq<byte>) returns (k: nat, x: seq<byte>, from: nat)
    requires EndsLine(data) && Patch(data).Rewritten?
    ensures Again(data, k, WordFrom(data, 0).at, x, from)
    ensures Patch(data).bytes == Insert(data, WordFrom(data, 0).at, x) && x[|SCHEME|..] == HostOf(data)
  {
    from := Find(data, 0, HOST).at + |HOST|;
    var host := HostFrom(data, from, []).bytes;
    x := SCHEME + host;
    WordStays(data, 0);
    k := FoundWord(data, 0);
    var at := WordFrom(data, 0).at;
    SpaceBehindWord(data, k, at);
    var n := HostText(data, from, []);
    assert [] + data[from..from + n] == data[from..from + n];
    assert PutIn(data, at, x, from) by { assert x[..|SCHEME|] == SCHEME && x[|SCHEME|..] == host; }
  }

  lemma SpaceBehindWord(data: seq<byte>, k: nat, at: nat)
    requires EndsLine(data) && k < |METHODS| && at >= |METHODS[k]|
    requires Find(data, 0, METHODS[k]) == FoundAt(at - |METHODS[k]|)
    ensures 0 < at <= |data| && data[at - 1] == SPACE
  {
    Words();
    MethodsEndWithSpace();
    FindIsFirst(data, METHODS[k]);
    NotInside(data, at - |METHODS[k]|, METHODS[k], at - 1);
  }

  /** So rewriting a request in origin form again changes nothing when the first rewrite hit its request line. */
  lemma SecondRewriteDoesNothing(data: seq<byte>, k: nat, host: seq<byte>)
    requires OriginForm(data, k, host) && !EarlierWord(data, k)
    ensures Patch(data).Rewritten? && Patch(Patch(data).bytes) == Untouched
  {
    RewritesTheTarget(data, k, host);
    MethodIsFound(data, k);
    var j, x, from := FirstRewrite(data);
    SlashSecond(data, j, |METHODS[k]|, x, from);
  }

  lemma SlashSecond(data: seq<byte>, k: nat, at: nat, x: seq<byte>, from: nat)
    requires Again(data, k, at, x, from) && data[at] == SLASH
    ensures Patch(Insert(data, at, x)) == Untouched
  {
    forall i, s: nat | 0 <= i < k && s < |METHODS[i]| ensures !Joins(data, at, x[|SCHEME|..], METHODS[i], s) {
      NoneAcrossSlash(data, at, x[|SCHEME|..], METHODS[i], s);
    }
    var b := Insert(data, at, x);
    SameWordFound(data, k, at, x, from);
    InsertEndsLine(data, at, x);
    HostStaysFound(data, k, at, x, from);
    UntouchedIf(b);
    SchemePutIn(data, at, x, from);
  }

  lemma NoneAcrossSlash(data: seq<byte>, at: nat, host: seq<byte>, v: seq<byte>, r: nat)
    requires at < |data| && data[at] == SLASH && v in METHODS
    ensures !Joins(data, at, host, v, r)
  {
    if Joins(data, at, host, v, r) {
      var w := host[|host| - r..] + data[at..at + (|v| - r)];
      assert w[r] == SLASH;
      MethodsEndWithSpace();
      NotInside(w, 0, v, r);
    }
  }

  lemma {:induction false} SchemeFound(b: seq<byte>, a: nat, i: nat)
    requires i <= |HTTP_COLON| && a + |HTTP_COLON| <= |b|
    requires b[a..a + |HTTP_COLON|] == HTTP_COLON
    ensures SchemeAt(b, a, i) == Same
    decreases |HTTP_COLON| - i
  {
    if i < |HTTP_COLON| {
      assert b[a + i] == b[a..a + |HTTP_COLON|][i];
      SchemeFound(b, a, i + 1);
    }
  }

  // ----- a request that is spoilt -----

  /** "POST /", "Host: a" and "GET ", each on a line */
  const POST_WITH_GET: seq<byte> := [
    0x50, 0x4F, 0x53, 0x54, 0x20, 0x2F, 0x0D, 0x0A,
    0x48, 0x6F, 0x73, 0x74, 0x3A, 0x20, 0x61, 0x0D, 0x0A,
    0x47, 0x45, 0x54, 0x20, 0x0D, 0x0A]

  /** The same, byte by byte. */
  predicate PostWithGet(d: seq<byte>) {
    && |d| == 23
    && d[0] == 0x50 && d[1] == 0x4F && d[2] == 0x53 && d[3] == 0x54 && d[4] == 0x20 && d[5] == 0x2F
    && d[6] == 0x0D && d[7] == 0x0A
    && d[8] == 0x48 && d[9] == 0x6F && d[10] == 0x73 && d[11] == 0x74 && d[12] == 0x3A && d[13] == 0x20
    && d[14] == 0x61 && d[15] == 0x0D && d[16] == 0x0A
    && d[17] == 0x47 && d[18] == 0x45 && d[19] == 0x54 && d[20] == 0x20 && d[21] == 0x0D && d[22] == 0x0A
  }

  /** A POST with a GET behind the request line: the request line stays as it is and the other line is changed. */
  lemma WrongLineRewritten()
    ensures OriginForm(POST_WITH_GET, 1, [0x61])
    ensures Patch(POST_WITH_GET) == Rewritten(Insert(POST_WITH_GET, 21, SCHEME + [0x61]))
  {
    assert PostWithGet(POST_WITH_GET);
    SpoiltPost(POST_WITH_GET);
  }

  lemma SpoiltPost(d: seq<byte>)
    requires PostWithGet(d)
    ensures OriginForm(d, 1, [0x61]) && Patch(d) == Rewritten(Insert(d, 21, SCHEME + [0x61]))
  {
    FindIsFirst(d, HOST);
    assert Find(d, 0, HOST) == FoundAt(8) by {
      assert Matches(d, 8, HOST);
      assert forall q: nat | q < 8 :: d[q] != 0x48;
    }
    FindIsFirst(d, METHODS[0]);
    assert WordFrom(d, 0) == Behind(21) by {
      assert Matches(d, 17, METHODS[0]);
      assert forall q: nat | q < 17 :: d[q] != 0x47;
    }
    assert d[..5] == METHODS[1] && d[14..15] == [0x61];
    assert SchemeAt(d, 21, 0) == Different;
    PatchOf(d, 1, [0x61]);
  }

  // ----- a request that is rewritten twice -----

  /** "PUT /", "Host: GET" and "POST  ", each on a line */
  const PUT_WITH_POST: seq<byte> := [
    0x50, 0x55, 0x54, 0x20, 0x2F, 0x0D, 0x0A,
    0x48, 0x6F, 0x73, 0x74, 0x3A, 0x20, 0x47, 0x45, 0x54, 0x0D, 0x0A,
    0x50, 0x4F, 0x53, 0x54, 0x20, 0x20, 0x0D, 0x0A]

  /** The same, byte by byte. */
  predicate PutWithPost(d: seq<byte>) {
    && |d| == 26
    && d[0] == 0x50 && d[1] == 0x55 && d[2] == 0x54 && d[3] == 0x20 && d[4] == 0x2F && d[5] == 0x0D && d[6] == 0x0A
    && d[7] == 0x48 && d[8] == 0x6F && d[9] == 0x73 && d[10] == 0x74 && d[11] == 0x3A && d[12] == 0x20
    && d[13] == 0x47 && d[14] == 0x45 && d[15] == 0x54 && d[16] == 0x0D && d[17] == 0x0A
    && d[18] == 0x50 && d[19] == 0x4F && d[20] == 0x53 && d[21] == 0x54 && d[22] == 0x20 && d[23] == 0x20
    && d[24] == 0x0D && d[25] == 0x0A
  }

  /** The host goes behind POST, ends with GET in front of a space, and the next rewrite goes behind that GET. */
  lemma RewrittenTwice()
    ensures OriginForm(PUT_WITH_POST, 2, [0x47, 0x45, 0x54])
    ensures Patch(PUT_WITH_POST) == Rewritten(Insert(PUT_WITH_POST, 23, SCHEME + [0x47, 0x45, 0x54]))
    ensures Patch(Patch(PUT_WITH_POST).bytes).Rewritten?
  {
    assert PutWithPost(PUT_WITH_POST);
    FirstOfTwo(PUT_WITH_POST);
    SecondOfTwo(PUT_WITH_POST);
  }

  lemma FirstOfTwo(d: seq<byte>)
    requires PutWithPost(d)
    ensures OriginForm(d, 2, [0x47, 0x45, 0x54])
    ensures WordFrom(d, 0) == Behind(23) && TriedBefore(d, 0)
    ensures Patch(d) == Rewritten(Insert(d, 23, SCHEME + [0x47, 0x45, 0x54]))
  {
    FindIsFirst(d, HOST);
    assert Find(d, 0, HOST) == FoundAt(7) by {
      assert Matches(d, 7, HOST);
      assert forall q: nat | q < 7 :: d[q] != 0x48;
    }
    NoGet(d);
    FindIsFirst(d, METHODS[1]);
    assert Find(d, 0, METHODS[1]) == FoundAt(18) by {
      assert Matches(d, 18, METHODS[1]);
      assert Lower(d[0 + 1]) != Lower(METHODS[1][1]);
      assert forall q: nat | 0 < q < 18 :: d[q] != 0x50;
    }
    assert WordFrom(d, 0) == WordFrom(d, 1);
    assert d[..4] == METHODS[2] && d[13..16] == [0x47, 0x45, 0x54];
    assert SchemeAt(d, 23, 0) == Different;
    PatchOf(d, 2, [0x47, 0x45, 0x54]);
  }

  lemma NoGet(d: seq<byte>)
    requires PutWithPost(d)
    ensures Find(d, 0, METHODS[0]) == NotFound
  {
    FindIsFirst(d, METHODS[0]);
    forall q: nat ensures !Matches(d, q, METHODS[0]) {
      if q == 13 {
        assert Lower(d[13 + 3]) != Lower(METHODS[0][3]);
      } else if q < 26 {
        assert d[q] != 0x47;
      }
    }
  }

  lemma SecondOfTwo(d: seq<byte>)
    requires PutWithPost(d)
    ensures Patch(d).Rewritten? && Patch(Patch(d).bytes).Rewritten?
  {
    FirstOfTwo(d);
    var get := [0x47, 0x45, 0x54];
    var b := Insert(d, 23, SCHEME + get);
    assert HostOf(d) == get by { assert Insert(d, 23, SCHEME + HostOf(d)) == b; HostIs(d, 23, HostOf(d), get); }
    assert Joins(d, 23, get, METHODS[0], 3) by { assert get[0..] + d[23..24] == [0x47, 0x45, 0x54, 0x20]; }
    assert FirstJoin(d, 23, get, 0, 3);
    assert SchemeAt(d, 24, 0) == Different;
    SecondRewriteExactly(d);
    InsertEndsLine(d, 23, SCHEME + get);
    PatchStaysInside(b);
  }

  lemma HostIs(d: seq<byte>, at: nat, host: seq<byte>, other: seq<byte>)
    requires at <= |d| && Insert(d, at, SCHEME + host) == Insert(d, at, SCHEME + other)
    ensures host == other
  {
    InsertedParts(d, at, SCHEME + host);
    InsertedParts(d, at, SCHEME + other);
    assert (SCHEME + host)[|SCHEME|..] == host && (SCHEME + other)[|SCHEME|..] == other;
  }
}
