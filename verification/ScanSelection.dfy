/** SCAN patterns and what they select: Redis matches the glob against the bytes of every key, and the
    gateway keeps only the matches that pass the storage filter. */
module ScanSelection {
  import opened Wrappers
  import opened Utf8
  import opened KeyCodec
  import opened Text

  // ------------------------------------------------------------------
  // Glob matching, for patterns of literals, `*` and `?`
  // ------------------------------------------------------------------

  const STAR: byte := 0x2A
  const ANY: byte := 0x3F

  predicate Glob(p: seq<byte>, s: seq<byte>)
    decreases |p| + |s|
  {
    if p == [] then s == []
    else if p[0] == STAR then Glob(p[1..], s) || (s != [] && Glob(p, s[1..]))
    else s != [] && (p[0] == ANY || p[0] == s[0]) && Glob(p[1..], s[1..])
  }

  predicate Literal(p: seq<byte>) { STAR !in p && ANY !in p }

  /** A literal in front of a pattern matches exactly the keys that start with it. */
  lemma {:induction false} GlobLiteral(lit: seq<byte>, p: seq<byte>, s: seq<byte>)
    requires Literal(lit)
    ensures Glob(lit + p, s) <==> lit <= s && Glob(p, s[|lit|..])
  {
    if lit == [] {
      assert lit + p == p && s[|lit|..] == s;
    } else {
      assert (lit + p)[0] == lit[0] && (lit + p)[1..] == lit[1..] + p;
      if s != [] && s[0] == lit[0] {
        GlobLiteral(lit[1..], p, s[1..]);
        assert lit <= s <==> lit[1..] <= s[1..];
        if lit <= s {
          assert s[|lit|..] == s[1..][|lit| - 1..];
        }
      }
    }
  }

  /** A star in front lets the rest match any suffix. */
  lemma {:induction false} GlobStar(p: seq<byte>, s: seq<byte>)
    ensures Glob([STAR] + p, s) <==> exists i :: 0 <= i <= |s| && Glob(p, s[i..])
  {
    assert ([STAR] + p)[1..] == p && s[0..] == s;
    if s != [] {
      GlobStar(p, s[1..]);
      assert forall i :: 0 <= i <= |s| - 1 ==> s[1..][i..] == s[i + 1..];
      if exists i :: 0 <= i <= |s| && Glob(p, s[i..]) {
        var i :| 0 <= i <= |s| && Glob(p, s[i..]);
        if i > 0 {
          assert s[1..][i - 1..] == s[i..];
        }
      }
    }
  }

  /** A question mark in front takes one byte, whichever it is; the empty pattern matches only the empty text. */
  lemma GlobAny(p: seq<byte>, s: seq<byte>)
    ensures Glob([ANY] + p, s) <==> s != [] && Glob(p, s[1..])
    ensures Glob([], s) <==> s == []
  {
    assert ([ANY] + p)[1..] == p;
  }

  lemma {:induction false} GlobLastLiteral(p: seq<byte>, b: byte, s: seq<byte>)
    requires b != STAR && b != ANY && Glob(p + [b], s)
    ensures s != [] && s[|s| - 1] == b
    decreases |p| + |s|
  {
    if p != [] {
      assert (p + [b])[0] == p[0] && (p + [b])[1..] == p[1..] + [b];
      if p[0] == STAR {
        if Glob(p[1..] + [b], s) {
          GlobLastLiteral(p[1..], b, s);
        } else {
          GlobLastLiteral(p, b, s[1..]);
        }
      } else {
        GlobLastLiteral(p[1..], b, s[1..]);
      }
    }
  }

  // ------------------------------------------------------------------
  // Building the pattern
  // ------------------------------------------------------------------

  const TYPE_PREFIX: map<string, string> := map[
    "string" := "kv", "kv" := "kv", "hash" := "map", "map" := "map", "list" := "q", "queue" := "q",
    "set" := "grp", "group" := "grp", "zset" := "rank", "rank" := "rank", "stream" := "evt", "event" := "evt",
    "q" := "q", "grp" := "grp", "evt" := "evt"]

  function ResolveTypePrefix(typeName: string): Option<string> { At(TYPE_PREFIX, typeName) }

  datatype ScanError = INVALID_KEY | INVALID_TYPE

  predicate PatternChar(c: char) { KeyChar(c) || c == '*' || c == '?' }

  predicate PatternChars(s: string) { forall i :: 0 <= i < |s| ==> PatternChar(s[i]) }

  /** The regular expression is anchored by `$`, which also matches in front of a final newline. */
  predicate AcceptedPattern(s: string) {
    PatternChars(s) || (s != [] && s[|s| - 1] == '\n' && PatternChars(s[..|s| - 1]))
  }

  // An absent or empty namespace or type becomes `*`.
  function BuildScanPattern(ns: string, typeName: string, pattern: string): Result<string, ScanError> {
    if !AcceptedPattern(pattern) then Err(INVALID_KEY)
    else
      var nsPart := if ns == "" then "*" else ns;
      if typeName == "" then Ok(Join(nsPart, "*", pattern))
      else match ResolveTypePrefix(typeName)
        case None => Err(INVALID_TYPE)
        case Some(prefix) => Ok(Join(nsPart, prefix, pattern))
  }

  predicate Matches(pattern: string, redisKey: string) { Glob(Encode(pattern), Encode(redisKey)) }

  predicate Selected(pattern: string, redisKey: string) { Matches(pattern, redisKey) && IsStorageKey(redisKey) }

  /** A type name resolves to a storage prefix, and every storage prefix is a name for itself. */
  lemma TypesResolveToStorage(typeName: string)
    ensures ResolveTypePrefix(typeName).Some? ==> ResolveTypePrefix(typeName).value in STORAGE_PREFIXES
    ensures typeName in STORAGE_PREFIXES ==> ResolveTypePrefix(typeName) == Some(typeName)
  {
  }

  /** The names of each type, and no other: the API's, the one of Redis and the prefix in the key. */
  lemma TypeNames(typeName: string)
    ensures ResolveTypePrefix(typeName) == Some("kv") <==> typeName in {"string", "kv"}
    ensures ResolveTypePrefix(typeName) == Some("map") <==> typeName in {"hash", "map"}
    ensures ResolveTypePrefix(typeName) == Some("q") <==> typeName in {"list", "queue", "q"}
    ensures ResolveTypePrefix(typeName) == Some("grp") <==> typeName in {"set", "group", "grp"}
    ensures ResolveTypePrefix(typeName) == Some("rank") <==> typeName in {"zset", "rank"}
    ensures ResolveTypePrefix(typeName) == Some("evt") <==> typeName in {"stream", "event", "evt"}
  {
    TypesResolveToStorage(typeName);
  }

  // ------------------------------------------------------------------
  // From text to bytes
  // ------------------------------------------------------------------

  predicate PlainText(s: string) { forall i :: 0 <= i < |s| ==> KeyChar(s[i]) }

  lemma PlainIsLiteral(s: string)
    requires PlainText(s)
    ensures Ascii(s) && Literal(Encode(s)) && |Encode(s)| == |s|
  {
    EncodeAscii(s);
    forall i | 0 <= i < |s|
      ensures Encode(s)[i] != STAR && Encode(s)[i] != ANY
    {
      assert Encode(s)[i] as int == s[i] as int;
    }
  }

  /** Plain text in front of a pattern: the key must start with that text, and the rest matches the rest. */
  lemma MatchesPlain(text: string, pattern: string, redisKey: string)
    requires PlainText(text)
    ensures Matches(text + pattern, redisKey) <==> text <= redisKey && Matches(pattern, redisKey[|text|..])
  {
    EncodeConcat(text, pattern);
    PlainIsLiteral(text);
    GlobLiteral(Encode(text), Encode(pattern), Encode(redisKey));
    if Encode(text) <= Encode(redisKey) {
      AsciiPrefix(redisKey, text);
    }
    if text <= redisKey {
      assert redisKey == text + redisKey[|text|..];
      EncodeConcat(text, redisKey[|text|..]);
      assert Encode(redisKey)[|text|..] == Encode(redisKey[|text|..]);
    }
  }

  /** One literal segment: the key's text up to its first colon is that segment, and the rest matches. */
  lemma MatchesSegment(segment: string, pattern: string, redisKey: string)
    requires PlainText(segment) && ':' !in segment
    ensures Matches(segment + ":" + pattern, redisKey) <==>
      Cut(redisKey, ':').Some? && Cut(redisKey, ':').value.0 == segment && Matches(pattern, Cut(redisKey, ':').value.1)
  {
    var text := segment + ":";
    MatchesPlain(text, pattern, redisKey);
    if text <= redisKey {
      var rest := redisKey[|text|..];
      assert redisKey == segment + [':'] + rest;
      CutIs(redisKey, ':', segment, rest);
    }
    if Cut(redisKey, ':').Some? && Cut(redisKey, ':').value.0 == segment {
      CutGives(redisKey, ':');
      assert text <= redisKey;
    }
  }

  lemma StoragePrefixesArePlain(prefix: string)
    requires prefix in STORAGE_PREFIXES
    ensures PlainText(prefix) && ':' !in prefix
  {
  }

  lemma ValidNsIsPlain(ns: string)
    requires PyValidNs(ns)
    ensures PlainText(ns) && ':' !in ns
  {
  }

  // ------------------------------------------------------------------
  // Isolation: a validated namespace never reaches another one
  // ------------------------------------------------------------------

  /** Whatever matches a pattern built for a validated namespace, and passes the storage filter, belongs to
      that namespace; with a type given, it also has that type's prefix. Any text may be a key. */
  lemma SelectionIsIsolated(ns: string, typeName: string, pattern: string, redisKey: string)
    requires PyValidNs(ns) && BuildScanPattern(ns, typeName, pattern).Ok?
    requires Selected(BuildScanPattern(ns, typeName, pattern).value, redisKey)
    ensures PyParse(redisKey).Some? && PyParse(redisKey).value.ns == ns
    ensures PyParse(redisKey).value.prefix in STORAGE_PREFIXES
    ensures typeName != "" ==> Some(PyParse(redisKey).value.prefix) == ResolveTypePrefix(typeName)
    ensures !InternalKey(redisKey)
  {
    var middle := if typeName == "" then "*" else ResolveTypePrefix(typeName).value;
    SplitPattern(ns, middle, pattern);
    ValidNsIsPlain(ns);
    MatchesSegment(ns, middle + ":" + pattern, redisKey);
    PyParseCuts(redisKey);
    if typeName != "" {
      TypesResolveToStorage(typeName);
      StoragePrefixesArePlain(middle);
      MatchesSegment(middle, pattern, Cut(redisKey, ':').value.1);
    }
    if InternalKey(redisKey) {
      InternalKeysAreNotStorage(redisKey);
    }
  }

  lemma SplitPattern(ns: string, middle: string, pattern: string)
    ensures Join(ns, middle, pattern) == ns + ":" + (middle + ":" + pattern)
  {
  }

  // ------------------------------------------------------------------
  // Exactness: which built keys are selected
  // ------------------------------------------------------------------

  predicate Built(ns: string, prefix: string, key: string) {
    PyValidNs(ns) && prefix in STORAGE_PREFIXES && PyValidKey(key)
  }

  lemma BuiltCuts(n: string, prefix: string, key: string)
    requires Built(n, prefix, key)
    ensures IsStorageKey(Join(n, prefix, key))
    ensures Cut(Join(n, prefix, key), ':') == Some((n, prefix + ":" + key)) &&
      Cut(prefix + ":" + key, ':') == Some((prefix, key))
  {
    CodecRoundTrip(n, prefix, key);
    ValidNsIsPlain(n);
    StoragePrefixesArePlain(prefix);
    JoinShape(n, prefix, key);
    CutIs(Join(n, prefix, key), ':', n, prefix + ":" + key);
    CutIs(prefix + ":" + key, ':', prefix, key);
  }

  /** With a namespace and a type, the selection is what it reads as: that namespace, that type, and the
      pattern against the whole user key. */
  lemma TypedSelectionIsExact(ns: string, typeName: string, pattern: string, n: string, prefix: string, key: string)
    requires PyValidNs(ns) && typeName != "" && Built(n, prefix, key)
    requires BuildScanPattern(ns, typeName, pattern).Ok?
    ensures Selected(BuildScanPattern(ns, typeName, pattern).value, Join(n, prefix, key))
       <==> n == ns && Some(prefix) == ResolveTypePrefix(typeName) && Matches(pattern, key)
  {
    var wanted := ResolveTypePrefix(typeName).value;
    BuiltCuts(n, prefix, key);
    TypesResolveToStorage(typeName);
    StoragePrefixesArePlain(wanted);
    ValidNsIsPlain(ns);
    SplitPattern(ns, wanted, pattern);
    MatchesSegment(ns, wanted + ":" + pattern, Join(n, prefix, key));
    MatchesSegment(wanted, pattern, prefix + ":" + key);
  }

  /** The selection is of one type: the pattern is built, and selects the key if and only if that is in the
      namespace, has the prefix and a user key that matches. */
  predicate Picks(ns: string, typeName: string, pattern: string, wanted: string, n: string, prefix: string, key: string)
  {
    var built := BuildScanPattern(ns, typeName, pattern);
    built.Ok? &&
    (Selected(built.value, Join(n, prefix, key)) <==> n == ns && prefix == wanted && Matches(pattern, key))
  }

  lemma PicksResolved(ns: string, typeName: string, pattern: string, n: string, prefix: string, key: string)
    requires PyValidNs(ns) && AcceptedPattern(pattern) && Built(n, prefix, key)
    requires typeName != "" && ResolveTypePrefix(typeName).Some?
    ensures Picks(ns, typeName, pattern, ResolveTypePrefix(typeName).value, n, prefix, key)
  {
    TypedSelectionIsExact(ns, typeName, pattern, n, prefix, key);
  }

  /** What each type name selects, name by name. A name that is none of these is an error, and so is any
      pattern with a character that is not allowed. */
  lemma SelectionByName(ns: string, typeName: string, pattern: string, n: string, prefix: string, key: string)
    requires PyValidNs(ns) && AcceptedPattern(pattern) && Built(n, prefix, key)
    ensures typeName in {"string", "kv"} ==> Picks(ns, typeName, pattern, "kv", n, prefix, key)
    ensures typeName in {"hash", "map"} ==> Picks(ns, typeName, pattern, "map", n, prefix, key)
    ensures typeName in {"list", "queue", "q"} ==> Picks(ns, typeName, pattern, "q", n, prefix, key)
    ensures typeName in {"set", "group", "grp"} ==> Picks(ns, typeName, pattern, "grp", n, prefix, key)
    ensures typeName in {"zset", "rank"} ==> Picks(ns, typeName, pattern, "rank", n, prefix, key)
    ensures typeName in {"stream", "event", "evt"} ==> Picks(ns, typeName, pattern, "evt", n, prefix, key)
    ensures typeName !in {"", "string", "kv", "hash", "map", "list", "queue", "q", "set", "group", "grp",
                          "zset", "rank", "stream", "event", "evt"} ==>
      BuildScanPattern(ns, typeName, pattern) == Err(INVALID_TYPE)
  {
    TypeNames(typeName);
    if typeName != "" && ResolveTypePrefix(typeName).Some? {
      TypesResolveToStorage(typeName);
      PicksResolved(ns, typeName, pattern, n, prefix, key);
    }
  }

  /** Some colon of the text has the pattern match everything after it. */
  predicate AfterColon(pattern: string, s: string) {
    exists i :: 0 <= i < |s| && s[i] == ':' && Matches(pattern, s[i + 1..])
  }

  /** Without a type, the star in the middle also crosses colons of the user key: the pattern may match
      the whole user key or whatever follows one of its colons. */
  lemma UntypedSelectionIsExact(ns: string, pattern: string, n: string, prefix: string, key: string)
    requires PyValidNs(ns) && AcceptedPattern(pattern) && Built(n, prefix, key)
    ensures Selected(BuildScanPattern(ns, "", pattern).value, Join(n, prefix, key))
       <==> n == ns && (Matches(pattern, key) || AfterColon(pattern, key))
  {
    BuiltCuts(n, prefix, key);
    ValidNsIsPlain(ns);
    StoragePrefixesArePlain(prefix);
    SplitPattern(ns, "*", pattern);
    MatchesSegment(ns, "*" + ":" + pattern, Join(n, prefix, key));
    StarColon(pattern, prefix + ":" + key);
    AfterFirstColon(pattern, prefix, key);
  }

  lemma StarColon(pattern: string, s: string)
    requires PlainText(s)
    ensures Matches("*" + ":" + pattern, s) <==> AfterColon(pattern, s)
  {
    assert "*" + ":" + pattern == "*" + (":" + pattern);
    StarText(":" + pattern, s);
    forall i | 0 <= i <= |s|
      ensures Matches(":" + pattern, s[i..]) <==> i < |s| && s[i] == ':' && Matches(pattern, s[i + 1..])
    {
      MatchesPlain(":", pattern, s[i..]);
      if i < |s| {
        assert ":" <= s[i..] <==> s[i] == ':';
        assert s[i..][1..] == s[i + 1..];
      }
    }
  }

  /** A leading star over text: some suffix of the key matches the rest. */
  lemma StarText(rest: string, s: string)
    requires PlainText(s)
    ensures Matches("*" + rest, s) <==> exists i :: 0 <= i <= |s| && Matches(rest, s[i..])
  {
    EncodeConcat("*", rest);
    assert Encode("*") == [STAR];
    GlobStar(Encode(rest), Encode(s));
    PlainIsLiteral(s);
    forall i | 0 <= i <= |s|
      ensures Encode(s)[i..] == Encode(s[i..])
    {
      PlainSuffix(s, i);
    }
  }

  lemma PlainSuffix(s: string, i: nat)
    requires i <= |s| == |Encode(s)| && PlainText(s[..i])
    ensures Encode(s)[i..] == Encode(s[i..])
  {
    var a, b := s[..i], s[i..];
    assert s == a + b;
    EncodeConcat(a, b);
    PlainIsLiteral(a);
    assert (Encode(a) + Encode(b))[|Encode(a)|..] == Encode(b);
  }

  lemma AfterFirstColon(pattern: string, head: string, rest: string)
    requires ':' !in head
    ensures AfterColon(pattern, head + ":" + rest) <==> Matches(pattern, rest) || AfterColon(pattern, rest)
  {
    var s, m := head + ":" + rest, |head| + 1;
    assert s[m - 1] == ':' && s[m..] == rest;
    assert forall k :: 0 <= k < |head| ==> s[k] == head[k];
    forall i | 0 <= i < |rest|
      ensures s[m + i] == rest[i] && s[m + i + 1..] == rest[i + 1..]
    {
    }
    if AfterColon(pattern, s) {
      var i :| 0 <= i < |s| && s[i] == ':' && Matches(pattern, s[i + 1..]);
      assert i >= |head|;
      assert i >= m ==> s[m + (i - m)] == rest[i - m];
    }
    if AfterColon(pattern, rest) {
      var i :| 0 <= i < |rest| && rest[i] == ':' && Matches(pattern, rest[i + 1..]);
      assert s[m + i] == ':' && Matches(pattern, s[m + i + 1..]);
    }
  }

  lemma NothingAfterNoColon(pattern: string, key: string)
    requires ':' !in key
    ensures !AfterColon(pattern, key)
  {
  }

  /** So without a type the result is the expected one for every pattern exactly when the key has no
      colon: a key with a colon is selected by a pattern that its whole user key does not match. */
  lemma UntypedSelectionAsExpected(ns: string, n: string, prefix: string, key: string)
    requires PyValidNs(ns) && Built(n, prefix, key) && n == ns
    ensures ':' !in key <==> forall pattern :: AcceptedPattern(pattern) ==>
      (Selected(BuildScanPattern(ns, "", pattern).value, Join(n, prefix, key)) <==> Matches(pattern, key))
  {
    forall pattern | AcceptedPattern(pattern)
      ensures Selected(BuildScanPattern(ns, "", pattern).value, Join(n, prefix, key)) <==>
        Matches(pattern, key) || AfterColon(pattern, key)
    {
      UntypedSelectionIsExact(ns, pattern, n, prefix, key);
    }
    if ':' in key {
      var i :| 0 <= i < |key| && key[i] == ':';
      var pattern := key[i + 1..];
      MatchesOnlyItself(pattern, pattern);
      MatchesOnlyItself(pattern, key);
      assert AcceptedPattern(pattern) && AfterColon(pattern, key) && !Matches(pattern, key);
    } else {
      forall pattern | AcceptedPattern(pattern)
        ensures !AfterColon(pattern, key)
      {
        NothingAfterNoColon(pattern, key);
      }
    }
  }

  lemma MatchesOnlyItself(text: string, key: string)
    requires PlainText(text)
    ensures Matches(text, key) <==> key == text
  {
    MatchesPlain(text, "", key);
    assert text + "" == text;
    if text <= key {
      assert key == text + key[|text|..];
      EncodeLength(key[|text|..]);
    }
  }

  lemma JoinIsPlain(n: string, prefix: string, key: string)
    requires Built(n, prefix, key)
    ensures PlainText(Join(n, prefix, key)) && ':' !in n && ':' !in prefix
    ensures Join(n, prefix, key) == n + ":" + (prefix + ":" + key)
  {
    ValidNsIsPlain(n);
    StoragePrefixesArePlain(prefix);
    JoinShape(n, prefix, key);
  }

  /** A pattern tried after every colon of a built key: after the first, after the second, or inside the key. */
  lemma AfterColonOfBuilt(tail: string, n: string, prefix: string, key: string)
    requires Built(n, prefix, key)
    ensures AfterColon(tail, Join(n, prefix, key)) <==>
      Matches(tail, prefix + ":" + key) || Matches(tail, key) || AfterColon(tail, key)
  {
    JoinIsPlain(n, prefix, key);
    AfterFirstColon(tail, n, prefix + ":" + key);
    AfterFirstColon(tail, prefix, key);
  }

  lemma MatchesPrefix(wanted: string, pattern: string, n: string, prefix: string, key: string)
    requires Built(n, prefix, key) && wanted in STORAGE_PREFIXES
    ensures Matches(wanted + ":" + pattern, prefix + ":" + key) <==> prefix == wanted && Matches(pattern, key)
  {
    BuiltCuts(n, prefix, key);
    StoragePrefixesArePlain(wanted);
    MatchesSegment(wanted, pattern, prefix + ":" + key);
  }

  lemma AnyNamespacePattern(typeName: string, pattern: string)
    requires typeName != "" && BuildScanPattern("", typeName, pattern).Ok?
    ensures ResolveTypePrefix(typeName).Some? && ResolveTypePrefix(typeName).value in STORAGE_PREFIXES
    ensures BuildScanPattern("", typeName, pattern).value ==
      "*" + ":" + (ResolveTypePrefix(typeName).value + ":" + pattern)
  {
    TypesResolveToStorage(typeName);
    SplitPattern("*", ResolveTypePrefix(typeName).value, pattern);
  }

  /** Without a namespace, the leading star also crosses colons: a key is selected when it has the wanted
      type and its user key matches, or when its user key starts with `type:` or contains `:type:` and the
      pattern matches what follows. */
  lemma AnyNamespaceSelectionIsExact(typeName: string, pattern: string, n: string, prefix: string, key: string)
    requires typeName != "" && Built(n, prefix, key)
    requires BuildScanPattern("", typeName, pattern).Ok?
    ensures var wanted := ResolveTypePrefix(typeName).value;
      Selected(BuildScanPattern("", typeName, pattern).value, Join(n, prefix, key))
      <==> (prefix == wanted && Matches(pattern, key)) || AfterColon(wanted + ":" + pattern, key)
           || Matches(wanted + ":" + pattern, key)
  {
    AnyNamespacePattern(typeName, pattern);
    var wanted := ResolveTypePrefix(typeName).value;
    CodecRoundTrip(n, prefix, key);
    JoinIsPlain(n, prefix, key);
    StarColon(wanted + ":" + pattern, Join(n, prefix, key));
    AfterColonOfBuilt(wanted + ":" + pattern, n, prefix, key);
    MatchesPrefix(wanted, pattern, n, prefix, key);
  }

  /** The user key names the type as a segment of its own, with something after it. */
  predicate NamesType(key: string, wanted: string) {
    wanted + ":" <= key || Contains(key, ":" + wanted + ":")
  }

  lemma OccursAsSlice(text: string, word: string, i: nat)
    requires i <= |text|
    ensures OccursAt(text, word, i) <==> word <= text[i..]
  {
    if OccursAt(text, word, i) {
      forall j | 0 <= j < |word|
        ensures text[i..][j] == word[j]
      {
        assert text[i + j] == word[j];
      }
    }
    if word <= text[i..] {
      forall j | 0 <= j < |word|
        ensures text[i + j] == word[j]
      {
        assert text[i..][j] == word[j];
      }
    }
  }

  lemma AfterColonNames(pattern: string, key: string, wanted: string)
    requires wanted in STORAGE_PREFIXES
    ensures AfterColon(wanted + ":" + pattern, key) || Matches(wanted + ":" + pattern, key) ==> NamesType(key, wanted)
  {
    StoragePrefixesArePlain(wanted);
    MatchesPlain(wanted + ":", pattern, key);
    if i :| 0 <= i < |key| && key[i] == ':' && Matches(wanted + ":" + pattern, key[i + 1..]) {
      MatchesPlain(wanted + ":", pattern, key[i + 1..]);
      NameAfterColon(key, wanted, i);
    }
  }

  lemma NameAfterColon(key: string, wanted: string, i: nat)
    requires i < |key| && key[i] == ':' && wanted + ":" <= key[i + 1..]
    ensures NamesType(key, wanted)
  {
    assert key[i..] == [':'] + key[i + 1..];
    assert ":" + wanted + ":" == [':'] + (wanted + ":");
    OccursAsSlice(key, ":" + wanted + ":", i);
  }

  lemma NamedIsAfterColon(key: string, wanted: string)
    requires wanted in STORAGE_PREFIXES && NamesType(key, wanted)
    ensures AfterColon(wanted + ":" + "*", key) || Matches(wanted + ":" + "*", key)
  {
    StoragePrefixesArePlain(wanted);
    MatchesPlain(wanted + ":", "*", key);
    if wanted + ":" <= key {
      StarMatches(key[|wanted| + 1..]);
    } else {
      var i :| 0 <= i <= |key| && OccursAt(key, ":" + wanted + ":", i);
      OccursAsSlice(key, ":" + wanted + ":", i);
      ColonAndRest(key, wanted, i);
      MatchesPlain(wanted + ":", "*", key[i + 1..]);
      StarMatches(key[i + 1..][|wanted| + 1..]);
      assert AfterColon(wanted + ":" + "*", key);
    }
  }

  lemma ColonAndRest(key: string, wanted: string, i: nat)
    requires i <= |key| && ":" + wanted + ":" <= key[i..]
    ensures i < |key| && key[i] == ':' && wanted + ":" <= key[i + 1..]
  {
    var word := ":" + wanted + ":";
    assert word[0] == ':' && word[1..] == wanted + ":";
    assert key[i..][0] == word[0] && key[i..][1..] == key[i + 1..];
  }

  /** Without a namespace, a type filter keeps a key of another type out, whatever the pattern, if and only if its
      user key does not name the wanted type. */
  lemma AnyNamespaceSelectionAsExpected(typeName: string, n: string, prefix: string, key: string)
    requires typeName != "" && ResolveTypePrefix(typeName).Some? && Built(n, prefix, key)
    requires prefix != ResolveTypePrefix(typeName).value
    ensures !NamesType(key, ResolveTypePrefix(typeName).value) <==>
      forall pattern :: AcceptedPattern(pattern) ==>
        !Selected(BuildScanPattern("", typeName, pattern).value, Join(n, prefix, key))
  {
    var wanted := ResolveTypePrefix(typeName).value;
    TypesResolveToStorage(typeName);
    forall pattern | AcceptedPattern(pattern)
      ensures Selected(BuildScanPattern("", typeName, pattern).value, Join(n, prefix, key)) ==> NamesType(key, wanted)
    {
      AnyNamespaceSelectionIsExact(typeName, pattern, n, prefix, key);
      AfterColonNames(pattern, key, wanted);
    }
    if NamesType(key, wanted) {
      assert PatternChars("*");
      NamedIsAfterColon(key, wanted);
      AnyNamespaceSelectionIsExact(typeName, "*", n, prefix, key);
      assert Selected(BuildScanPattern("", typeName, "*").value, Join(n, prefix, key));
    }
  }

  /** A listing of one type over all namespaces can therefore contain keys of any other type. */
  lemma LeakThroughKey(typeName: string, pattern: string, n: string, prefix: string, a: string, b: string)
    requires typeName != "" && BuildScanPattern("", typeName, pattern).Ok? && Matches(pattern, b)
    requires Built(n, prefix, a + ":" + (ResolveTypePrefix(typeName).value + ":" + b))
    ensures Selected(BuildScanPattern("", typeName, pattern).value,
                     Join(n, prefix, a + ":" + (ResolveTypePrefix(typeName).value + ":" + b)))
  {
    AnyNamespacePattern(typeName, pattern);
    var wanted := ResolveTypePrefix(typeName).value;
    var inner := wanted + ":" + b;
    var key := a + ":" + inner;
    StoragePrefixesArePlain(wanted);
    MatchesPlain(wanted + ":", pattern, inner);
    assert inner[|wanted| + 1..] == b && wanted + ":" <= inner;
    assert key[|a|] == ':' && key[|a| + 1..] == inner;
    assert AfterColon(wanted + ":" + pattern, key);
    AnyNamespaceSelectionIsExact(typeName, pattern, n, prefix, key);
  }

  lemma AnyNamespaceLeaksTypes()
    ensures BuildScanPattern("", "kv", "*").Ok? && Built("n", "map", "a:kv:b")
    ensures Selected(BuildScanPattern("", "kv", "*").value, Join("n", "map", "a:kv:b"))
  {
    assert PatternChars("*");
    assert "a" + ":" + ("kv" + ":" + "b") == "a:kv:b";
    assert Built("n", "map", "a:kv:b");
    StarMatches("b");
    LeakThroughKey("kv", "*", "n", "map", "a", "b");
  }

  lemma StarMatches(s: string)
    ensures Matches("*", s)
  {
    assert Encode("*") == [STAR] + [];
    GlobStar([], Encode(s));
    assert Glob([], Encode(s)[|Encode(s)|..]);
  }

  // ------------------------------------------------------------------
  // The pattern check
  // ------------------------------------------------------------------

  /** Whatever the namespace and the type, a pattern with a character outside the key characters, `*` and `?` is
      refused, unless that is a newline at the end; and every name that is valid as a key is a pattern. */
  lemma PatternCheck(ns: string, typeName: string, pattern: string, i: nat)
    requires i < |pattern|
    ensures !KeyChar(pattern[i]) && pattern[i] !in "*?" && !(pattern[i] == '\n' && i == |pattern| - 1) ==>
      BuildScanPattern(ns, typeName, pattern) == Err(INVALID_KEY)
    ensures PyValidKey(pattern) ==> BuildScanPattern(ns, "", pattern).Ok?
  {
    if AcceptedPattern(pattern) && !PatternChars(pattern) && i < |pattern| - 1 {
      assert pattern[..|pattern| - 1][i] == pattern[i];
    }
  }

  /** The check lets one kind of pattern through that it is meant to reject, one ending in a newline; such a
      pattern selects no built key. */
  lemma NewlinePatternsSelectNothing(ns: string, typeName: string, pattern: string, n: string,
      prefix: string, key: string)
    requires AcceptedPattern(pattern) && !PatternChars(pattern)
    requires BuildScanPattern(ns, typeName, pattern).Ok? && Built(n, prefix, key)
    ensures pattern[|pattern| - 1] == '\n'
    ensures !Selected(BuildScanPattern(ns, typeName, pattern).value, Join(n, prefix, key))
  {
    var whole := BuildScanPattern(ns, typeName, pattern).value;
    assert whole == whole[..|whole| - 1] + "\n";
    StoragePrefixesArePlain(prefix);
    NewlineMatchesNoPlainText(whole[..|whole| - 1], Join(n, prefix, key));
  }

  lemma NewlineMatchesNoPlainText(init: string, stored: string)
    requires PlainText(stored)
    ensures !Matches(init + "\n", stored)
  {
    EncodeConcat(init, "\n");
    assert Encode("\n") == [0x0A];
    EncodeAscii(stored);
    assert forall i :: 0 <= i < |stored| ==> Encode(stored)[i] != 0x0A;
    if Matches(init + "\n", stored) {
      GlobLastLiteral(Encode(init), 0x0A, Encode(stored));
    }
  }
}
