/** Storage keys `namespace:prefix:key`: the two implementations of validation, printing and parsing.
    The Python one works on code points, the Rust one on the UTF-8 bytes of the same text. */
module KeyCodec {
  import opened Wrappers
  import opened Utf8

  // ------------------------------------------------------------------
  // Validation
  // ------------------------------------------------------------------

  predicate AlphanumericChar(c: char) {
    'A' <= c <= 'Z' || 'a' <= c <= 'z' || '0' <= c <= '9'
  }

  predicate NsChar(c: char) { AlphanumericChar(c) || c == '_' || c == '-' }

  predicate KeyChar(c: char) { AlphanumericChar(c) || c in "_.:-/" }

  predicate PyValidNs(ns: string) {
    1 <= |ns| <= 64 && forall i :: 0 <= i < |ns| ==> NsChar(ns[i])
  }

  predicate PyValidKey(key: string) {
    1 <= |key| <= 256 && forall i :: 0 <= i < |key| ==> KeyChar(key[i])
  }

  predicate AlphanumericByte(b: byte) {
    0x41 <= b <= 0x5A || 0x61 <= b <= 0x7A || 0x30 <= b <= 0x39
  }

  predicate NsByte(b: byte) { AlphanumericByte(b) || b == 0x5F || b == 0x2D }

  predicate KeyByte(b: byte) { AlphanumericByte(b) || b == 0x5F || b == 0x2E || b == 0x3A || b == 0x2D || b == 0x2F }

  predicate RustValidNs(bytes: seq<byte>) {
    bytes != [] && |bytes| <= 64 && forall i :: 0 <= i < |bytes| ==> NsByte(bytes[i])
  }

  predicate RustValidKey(bytes: seq<byte>) {
    bytes != [] && |bytes| <= 256 && forall i :: 0 <= i < |bytes| ==> KeyByte(bytes[i])
  }

  /** A text whose bytes are all below 128 has one byte per character, the character itself. */
  lemma LowBytes(s: string)
    requires forall i :: 0 <= i < |Encode(s)| ==> Encode(s)[i] < 0x80
    ensures Ascii(s)
  {
    if !Ascii(s) {
      HighByte(s);
    }
  }

  /** Counting code points and counting bytes accept the same names, on every text. */
  lemma ValidatorsAgree(s: string)
    ensures PyValidNs(s) <==> RustValidNs(Encode(s))
    ensures PyValidKey(s) <==> RustValidKey(Encode(s))
  {
    if PyValidNs(s) || PyValidKey(s) {
      assert Ascii(s);
    }
    if RustValidNs(Encode(s)) || RustValidKey(Encode(s)) {
      LowBytes(s);
    }
    if Ascii(s) {
      EncodeAscii(s);
      forall i | 0 <= i < |s|
        ensures NsChar(s[i]) <==> NsByte(Encode(s)[i])
        ensures KeyChar(s[i]) <==> KeyByte(Encode(s)[i])
      {
        assert Encode(s)[i] as int == s[i] as int;
      }
    }
  }

  predicate PyExceedsSize(value: string, maxSize: nat) { |Encode(value)| > maxSize }

  predicate RustWithinSize(bytes: seq<byte>, maxSize: nat) { |bytes| <= maxSize }

  /** The two size checks agree, and the limit is on bytes: a value of at most a quarter of the limit in
      characters always passes, a longer one than the limit never does. */
  lemma SizeChecksAgree(value: string, maxSize: nat)
    ensures PyExceedsSize(value, maxSize) <==> !RustWithinSize(Encode(value), maxSize)
    ensures 4 * |value| <= maxSize ==> !PyExceedsSize(value, maxSize)
    ensures |value| > maxSize ==> PyExceedsSize(value, maxSize)
  {
    EncodeLength(value);
  }

  // ------------------------------------------------------------------
  // Parsing
  // ------------------------------------------------------------------

  function IndexOf<T(==)>(s: seq<T>, x: T): (r: Option<nat>)
    ensures r.Some? ==> r.value < |s| && s[r.value] == x && x !in s[..r.value]
    ensures r.None? ==> x !in s
  {
    if s == [] then None
    else if s[0] == x then Some(0)
    else match IndexOf(s[1..], x)
      case None => None
      case Some(i) =>
        assert s[..i + 1] == [s[0]] + s[1..][..i];
        Some(i + 1)
  }

  lemma {:induction false} IndexIs<T>(s: seq<T>, x: T, i: nat)
    requires i < |s| && s[i] == x && x !in s[..i]
    ensures IndexOf(s, x) == Some(i)
  {
    if i > 0 {
      assert s[0] in s[..i] && s[1..][..i - 1] == s[..i][1..];
      IndexIs(s[1..], x, i - 1);
    }
  }

  /** The text before and after the first separator. */
  function Cut<T(==)>(s: seq<T>, x: T): Option<(seq<T>, seq<T>)> {
    match IndexOf(s, x)
    case None => None
    case Some(i) => Some((s[..i], s[i + 1..]))
  }

  lemma CutIs<T>(s: seq<T>, x: T, a: seq<T>, b: seq<T>)
    requires s == a + [x] + b && x !in a
    ensures Cut(s, x) == Some((a, b))
  {
    assert s[..|a|] == a && s[|a| + 1..] == b;
    IndexIs(s, x, |a|);
  }

  lemma CutGives<T>(s: seq<T>, x: T)
    requires Cut(s, x).Some?
    ensures var (a, b) := Cut(s, x).value; s == a + [x] + b && x !in a
  {
  }

  /** Cuts at the first `cuts` separators. */
  function SplitAtMost(s: string, sep: char, cuts: nat): seq<string> {
    if cuts == 0 then [s]
    else match IndexOf(s, sep)
      case None => [s]
      case Some(i) => [s[..i]] + SplitAtMost(s[i + 1..], sep, cuts - 1)
  }

  datatype Parts<T> = Parts(ns: T, prefix: T, key: T)

  function PyParse(redisKey: string): Option<Parts<string>> {
    var parts := SplitAtMost(redisKey, ':', 2);
    if |parts| != 3 then None else Some(Parts(parts[0], parts[1], parts[2]))
  }

  const COLON: byte := 0x3A

  function RustParse(redisKey: seq<byte>): Option<Parts<seq<byte>>> {
    match IndexOf(redisKey, COLON)
    case None => None
    case Some(first) =>
      var rest := redisKey[first + 1..];
      match IndexOf(rest, COLON)
      case None => None
      case Some(second) => Some(Parts(redisKey[..first], rest[..second], rest[second + 1..]))
  }

  function TwoCuts<T(==)>(s: seq<T>, x: T): Option<Parts<seq<T>>> {
    match Cut(s, x)
    case None => None
    case Some((a, rest)) =>
      match Cut(rest, x)
      case None => None
      case Some((b, c)) => Some(Parts(a, b, c))
  }

  /** Both parsers cut at the first colon and then at the first colon of the rest. */
  lemma PyParseCuts(s: string)
    ensures PyParse(s) == TwoCuts(s, ':')
  {
    var whole := SplitAtMost(s, ':', 2);
    if Cut(s, ':').Some? {
      var (a, rest) := Cut(s, ':').value;
      var tail := SplitAtMost(rest, ':', 1);
      assert whole == [a] + tail;
      if Cut(rest, ':').Some? {
        var (b, c) := Cut(rest, ':').value;
        assert SplitAtMost(c, ':', 0) == [c];
        assert tail == [b] + [c];
      } else {
        assert tail == [rest];
      }
    } else {
      assert whole == [s];
    }
  }

  lemma RustParseCuts(s: seq<byte>)
    ensures RustParse(s) == TwoCuts(s, COLON)
  {
  }

  lemma TwoCutsIs<T>(s: seq<T>, x: T, a: seq<T>, b: seq<T>, c: seq<T>)
    requires s == a + [x] + (b + [x] + c) && x !in a && x !in b
    ensures TwoCuts(s, x) == Some(Parts(a, b, c))
  {
    CutIs(s, x, a, b + [x] + c);
    CutIs(b + [x] + c, x, b, c);
  }

  /** The byte 0x3A occurs in encoded text only where the text has a colon. */
  lemma {:induction false} NoColonBytes(s: string)
    requires ':' !in s
    ensures COLON !in Encode(s)
  {
    if s != [] {
      EncodeCharShape(s[0]);
      NoColonBytes(s[1..]);
    }
  }

  lemma CutInBytes(s: string)
    ensures Cut(Encode(s), COLON) ==
      match Cut(s, ':') case None => None case Some((a, b)) => Some((Encode(a), Encode(b)))
  {
    if Cut(s, ':').Some? {
      CutGives(s, ':');
      var (a, b) := Cut(s, ':').value;
      EncodeConcat(a + ":", b);
      EncodeConcat(a, ":");
      EncodeAscii(":");
      assert Encode(":") == [COLON];
      NoColonBytes(a);
      CutIs(Encode(s), COLON, Encode(a), Encode(b));
    } else {
      NoColonBytes(s);
    }
  }

  /** On every text both parsers fail, or both succeed with the same three parts. */
  lemma ParsersAgree(s: string)
    ensures RustParse(Encode(s)) == match PyParse(s)
      case None => None
      case Some(p) => Some(Parts(Encode(p.ns), Encode(p.prefix), Encode(p.key)))
  {
    PyParseCuts(s);
    RustParseCuts(Encode(s));
    CutInBytes(s);
    if Cut(s, ':').Some? {
      CutInBytes(Cut(s, ':').value.1);
    }
  }

  // ------------------------------------------------------------------
  // Printing, and the codec laws
  // ------------------------------------------------------------------

  const STORAGE_PREFIXES: set<string> := {"kv", "map", "q", "grp", "rank", "evt"}

  function Join(ns: string, prefix: string, key: string): string { ns + ":" + prefix + ":" + key }

  lemma JoinShape(ns: string, prefix: string, key: string)
    ensures Join(ns, prefix, key) == ns + [':'] + (prefix + [':'] + key)
  {
  }

  /** Parsing undoes printing, whatever colons the user key has. */
  lemma ParseJoin(ns: string, prefix: string, key: string)
    requires ':' !in ns && ':' !in prefix
    ensures PyParse(Join(ns, prefix, key)) == Some(Parts(ns, prefix, key))
  {
    JoinShape(ns, prefix, key);
    TwoCutsIs(Join(ns, prefix, key), ':', ns, prefix, key);
    PyParseCuts(Join(ns, prefix, key));
  }

  /** Printing undoes parsing, on every text that parses. */
  lemma JoinParse(s: string)
    requires PyParse(s).Some?
    ensures var p := PyParse(s).value; Join(p.ns, p.prefix, p.key) == s && ':' !in p.ns && ':' !in p.prefix
  {
    PyParseCuts(s);
    CutGives(s, ':');
    CutGives(Cut(s, ':').value.1, ':');
    var p := PyParse(s).value;
    JoinShape(p.ns, p.prefix, p.key);
  }

  lemma StoragePrefixesHaveNoColon()
    ensures forall p :: p in STORAGE_PREFIXES ==> ':' !in p && Ascii(p)
  {
  }

  predicate IsStorageKey(redisKey: string) {
    PyParse(redisKey).Some? && PyParse(redisKey).value.prefix in STORAGE_PREFIXES
  }

  predicate HasShape(s: string, ns: string, prefix: string, key: string) {
    s == ns + ":" + prefix + ":" + key && ':' !in ns && prefix in {"kv", "map", "q", "grp", "rank", "evt"}
  }

  /** The storage keys are exactly the texts of the form `namespace:type:key` with one of the six types, where
      only the namespace must have no colon. */
  lemma StorageKeyShape(s: string)
    ensures IsStorageKey(s) <==> exists ns, prefix, key :: HasShape(s, ns, prefix, key)
  {
    if IsStorageKey(s) {
      JoinParse(s);
      assert HasShape(s, PyParse(s).value.ns, PyParse(s).value.prefix, PyParse(s).value.key);
    }
    if ns, prefix, key :| HasShape(s, ns, prefix, key) {
      StoragePrefixesHaveNoColon();
      ParseJoin(ns, prefix, key);
    }
  }

  lemma ValidNsHasNoColon(ns: string)
    requires PyValidNs(ns)
    ensures ':' !in ns && Ascii(ns)
  {
  }

  /** `build_key` of validated parts: it parses back to them, and different parts give different keys. */
  lemma CodecRoundTrip(ns: string, prefix: string, key: string)
    requires PyValidNs(ns) && prefix in STORAGE_PREFIXES
    ensures PyParse(Join(ns, prefix, key)) == Some(Parts(ns, prefix, key)) && IsStorageKey(Join(ns, prefix, key))
  {
    ValidNsHasNoColon(ns);
    StoragePrefixesHaveNoColon();
    ParseJoin(ns, prefix, key);
  }

  lemma CodecInjective(ns: string, prefix: string, key: string, ns': string, prefix': string, key': string)
    requires PyValidNs(ns) && prefix in STORAGE_PREFIXES && PyValidNs(ns') && prefix' in STORAGE_PREFIXES
    requires Join(ns, prefix, key) == Join(ns', prefix', key')
    ensures ns == ns' && prefix == prefix' && key == key'
  {
    CodecRoundTrip(ns, prefix, key);
    CodecRoundTrip(ns', prefix', key');
  }

  // Keys the gateway keeps for itself: the status lock, audit origins and metrics.
  predicate InternalKey(redisKey: string) {
    "__redgw:status_monitor:" <= redisKey || "__redgw:audit:" <= redisKey || "redgw:metrics:" <= redisKey
  }

  lemma ParseInternal(ns: string, area: string, redisKey: string)
    requires ':' !in ns && ':' !in area && Join(ns, area, "") <= redisKey
    ensures PyParse(redisKey) == Some(Parts(ns, area, redisKey[|ns| + |area| + 2..]))
  {
    var rest := redisKey[|ns| + |area| + 2..];
    assert redisKey == Join(ns, area, "") + rest == Join(ns, area, rest);
    ParseJoin(ns, area, rest);
  }

  /** No internal key passes the storage filter, so no built key is internal. */
  lemma InternalKeysAreNotStorage(redisKey: string)
    requires InternalKey(redisKey)
    ensures !IsStorageKey(redisKey)
  {
    if "__redgw:status_monitor:" <= redisKey {
      assert Join("__redgw", "status_monitor", "") == "__redgw:status_monitor:";
      ParseInternal("__redgw", "status_monitor", redisKey);
    } else if "__redgw:audit:" <= redisKey {
      assert Join("__redgw", "audit", "") == "__redgw:audit:";
      ParseInternal("__redgw", "audit", redisKey);
    } else {
      assert Join("redgw", "metrics", "") == "redgw:metrics:";
      ParseInternal("redgw", "metrics", redisKey);
    }
  }

  /** A built key does start with `__redgw:` when that is the namespace, which validation allows, and
      only then. */
  lemma ReservedNamespaceIsNotReserved(ns: string, prefix: string, key: string)
    requires PyValidNs(ns) && prefix in STORAGE_PREFIXES
    ensures !InternalKey(Join(ns, prefix, key))
    ensures "__redgw:" <= Join(ns, prefix, key) <==> ns == "__redgw"
    ensures PyValidNs("__redgw")
  {
    CodecRoundTrip(ns, prefix, key);
    if InternalKey(Join(ns, prefix, key)) {
      InternalKeysAreNotStorage(Join(ns, prefix, key));
    }
    ValidNsHasNoColon(ns);
    var s := Join(ns, prefix, key);
    JoinShape(ns, prefix, key);
    CutIs(s, ':', ns, prefix + [':'] + key);
    if "__redgw:" <= s {
      assert s == "__redgw" + [':'] + s[8..];
      CutIs(s, ':', "__redgw", s[8..]);
    }
  }
}
