/** The public key functions in their two builds: Python's own, and the wrapper that calls Rust and
    tells the two kinds of failure apart by looking for a word in the message. */
module KeyApi {
  import opened Wrappers
  import opened Utf8
  import opened KeyCodec
  import opened Text

  datatype Code = INVALID_NAMESPACE | INVALID_KEY

  // Written in pieces: the verifier looks into a text one character at a time, and short pieces keep that cheap.
  function KeyText(): string {
    "'" + " contains invalid" + " characters. Allow" + "ed: A-Z, a-z, 0-9" + ", _, ., :, -, /" + " (max 256 chars)"
  }

  function NsText(): string { "' contains invalid characters. Allowed: A-Z, a-z, 0-9, _, - (max 64 chars)" }

  function NsMessage(ns: string): string { "Namespace '" + ns + NsText() }

  function KeyMessage(key: string): string { "Key '" + key + KeyText() }

  // --- Python ---

  function PyBuildKey(ns: string, prefix: string, key: string): Result<string, Code> {
    if !PyValidNs(ns) then Err(INVALID_NAMESPACE)
    else if !PyValidKey(key) then Err(INVALID_KEY)
    else Ok(Join(ns, prefix, key))
  }

  function JoinAll(ns: string, prefix: string, keys: seq<string>): seq<string> {
    seq(|keys|, i requires 0 <= i < |keys| => Join(ns, prefix, keys[i]))
  }

  function PyBuildKeys(ns: string, prefix: string, keys: seq<string>): Result<seq<string>, Code> {
    if !PyValidNs(ns) then Err(INVALID_NAMESPACE)
    else if exists i :: 0 <= i < |keys| && !PyValidKey(keys[i]) then Err(INVALID_KEY)
    else Ok(JoinAll(ns, prefix, keys))
  }

  // --- Rust, failing with a message, and its wrapper ---

  function RustBuildKey(ns: string, prefix: string, key: string): Result<string, string> {
    if !RustValidNs(Encode(ns)) then Err(NsMessage(ns))
    else if !RustValidKey(Encode(key)) then Err(KeyMessage(key))
    else Ok(Join(ns, prefix, key))
  }

  method RustBuildKeys(ns: string, prefix: string, keys: seq<string>) returns (r: Result<seq<string>, string>)
    ensures !PyValidNs(ns) ==> r == Err(NsMessage(ns))
    ensures PyValidNs(ns) && r.Ok? ==> PyBuildKeys(ns, prefix, keys) == Ok(r.value)
    ensures PyValidNs(ns) && r.Err? ==>
      exists i :: 0 <= i < |keys| && FirstInvalid(keys, i) && r.error == KeyMessage(keys[i])
  {
    ValidatorsAgree(ns);
    if !RustValidNs(Encode(ns)) {
      return Err(NsMessage(ns));
    }
    var result := [];
    for i := 0 to |keys|
      invariant forall j :: 0 <= j < i ==> PyValidKey(keys[j])
      invariant |result| == i && forall j :: 0 <= j < i ==> result[j] == Join(ns, prefix, keys[j])
    {
      ValidatorsAgree(keys[i]);
      if !RustValidKey(Encode(keys[i])) {
        assert FirstInvalid(keys, i);
        return Err(KeyMessage(keys[i]));
      }
      result := result + [Join(ns, prefix, keys[i])];
    }
    assert result == JoinAll(ns, prefix, keys);
    return Ok(result);
  }

  predicate FirstInvalid(keys: seq<string>, i: nat) {
    i < |keys| && !PyValidKey(keys[i]) && forall j :: 0 <= j < i ==> PyValidKey(keys[j])
  }

  function Classify(message: string): Code {
    if Contains(message, "Namespace") then INVALID_NAMESPACE else INVALID_KEY
  }

  function ApiBuildKey(ns: string, prefix: string, key: string): Result<string, Code> {
    match RustBuildKey(ns, prefix, key)
    case Ok(k) => Ok(k)
    case Err(message) => Err(Classify(message))
  }

  // --- When the two builds agree ---

  lemma KeyTextShape()
    ensures |KeyText()| > 0 && KeyText()[0] == '\'' && Without(KeyText(), 'N')
  {
    assert Without("'" + " contains invalid", 'N') && Without(" characters. Allow", 'N');
    assert Without("ed: A-Z, a-z, 0-9", 'N') && Without(", _, ., :, -, /", 'N') && Without(" (max 256 chars)", 'N');
  }

  /** The quotes around the key keep the word from straddling its ends. */
  lemma WordInMessage(key: string)
    ensures Contains(KeyMessage(key), "Namespace") <==> Contains(key, "Namespace")
  {
    KeyTextShape();
    assert "Namespace"[0] == 'N' && Without("Namespace", '\'') && Without("Key '", 'N');
    QuotedWord("Key '", key, KeyText(), "Namespace");
  }

  lemma QuotedWord(head: string, key: string, tail: string, word: string)
    requires |word| > 0 && Without(head, word[0]) && Without(tail, word[0])
    requires |tail| > 0 && Without(word, tail[0])
    ensures Contains(head + key + tail, word) <==> Contains(key, word)
  {
    var message := head + key + tail;
    if i :| 0 <= i <= |message| && OccursAt(message, word, i) {
      assert message[i] == message[i + 0] == word[0];
      assert |head| <= i < |head| + |key|;
      NotAcross(message, word, i, |head| + |key|);
      forall j | 0 <= j < |word|
        ensures key[i - |head| + j] == word[j]
      {
        assert message[i + j] == word[j];
      }
      assert OccursAt(key, word, i - |head|);
    }
    if i :| 0 <= i <= |key| && OccursAt(key, word, i) {
      forall j | 0 <= j < |word|
        ensures message[|head| + i + j] == word[j]
      {
        assert key[i + j] == word[j];
      }
      assert OccursAt(message, word, |head| + i);
    }
  }

  lemma NotAcross(text: string, word: string, i: nat, at: nat)
    requires OccursAt(text, word, i) && i <= at < |text| && Without(word, text[at])
    ensures i + |word| <= at
  {
    if at < i + |word| {
      CharOfWord(text, word, i, at);
    }
  }

  lemma CharOfWord(text: string, word: string, i: nat, at: nat)
    requires OccursAt(text, word, i) && i <= at < i + |word|
    ensures text[at] == word[at - i]
  {
    assert text[i + (at - i)] == word[at - i];
  }

  lemma WordStartsNsMessage(ns: string)
    ensures Classify(NsMessage(ns)) == INVALID_NAMESPACE
  {
    assert OccursAt(NsMessage(ns), "Namespace", 0);
  }

  /** The two builds answer alike unless the namespace is fine, the key is not, and the key has the word
      `Namespace` in it: then the Rust build blames the namespace. */
  lemma BuildsAgreeUnless(ns: string, prefix: string, key: string)
    ensures ApiBuildKey(ns, prefix, key) == PyBuildKey(ns, prefix, key)
       <==> !(PyValidNs(ns) && !PyValidKey(key) && Contains(key, "Namespace"))
  {
    ValidatorsAgree(ns);
    ValidatorsAgree(key);
    WordInMessage(key);
    WordStartsNsMessage(ns);
  }

  lemma RustBlamesNamespace(ns: string, prefix: string, key: string)
    requires PyValidNs(ns) && !PyValidKey(key) && Contains(key, "Namespace")
    ensures ApiBuildKey(ns, prefix, key) == Err(INVALID_NAMESPACE) && PyBuildKey(ns, prefix, key) == Err(INVALID_KEY)
  {
    ValidatorsAgree(ns);
    ValidatorsAgree(key);
    WordInMessage(key);
  }

  lemma SuchKeysExist()
    ensures PyValidNs("ERP") && !PyValidKey("Namespace!") && Contains("Namespace!", "Namespace")
  {
    assert "Namespace!"[9] == '!' && !KeyChar('!');
    assert OccursAt("Namespace!", "Namespace", 0);
  }

  lemma BuildsAcceptAlike(ns: string, prefix: string, key: string)
    ensures ApiBuildKey(ns, prefix, key).Ok? <==> PyValidNs(ns) && PyValidKey(key)
    ensures ApiBuildKey(ns, prefix, key).Ok? ==> ApiBuildKey(ns, prefix, key).value == Join(ns, prefix, key)
  {
    ValidatorsAgree(ns);
    ValidatorsAgree(key);
  }

  /** Both builds accept the same keys, and what they accept parses back to its parts and passes the
      storage filter. */
  lemma BuiltKeysParseBack(ns: string, prefix: string, key: string)
    requires prefix in STORAGE_PREFIXES
    ensures ApiBuildKey(ns, prefix, key).Ok? <==> PyBuildKey(ns, prefix, key).Ok?
    ensures ApiBuildKey(ns, prefix, key).Ok? ==>
      var k := ApiBuildKey(ns, prefix, key).value;
      k == PyBuildKey(ns, prefix, key).value && PyParse(k) == Some(Parts(ns, prefix, key)) && IsStorageKey(k) &&
        !InternalKey(k)
  {
    BuildsAcceptAlike(ns, prefix, key);
    if PyValidNs(ns) {
      CodecRoundTrip(ns, prefix, key);
      ReservedNamespaceIsNotReserved(ns, prefix, key);
    }
  }

  /** Whole batches: the same keys come out, and a failure is reported for the same first bad key, with
      the same code unless that key has the word in it. */
  method ApiBuildKeys(ns: string, prefix: string, keys: seq<string>) returns (r: Result<seq<string>, Code>)
    ensures r.Ok? <==> PyBuildKeys(ns, prefix, keys).Ok?
    ensures r.Ok? ==> r == PyBuildKeys(ns, prefix, keys)
    ensures r == PyBuildKeys(ns, prefix, keys)
       <==> !(PyValidNs(ns) && exists i :: 0 <= i < |keys| && FirstInvalid(keys, i) && Contains(keys[i], "Namespace"))
  {
    var rust := RustBuildKeys(ns, prefix, keys);
    match rust
    case Ok(built) => r := Ok(built);
    case Err(message) =>
      r := Err(Classify(message));
      WordStartsNsMessage(ns);
      if PyValidNs(ns) {
        var i :| 0 <= i < |keys| && FirstInvalid(keys, i) && message == KeyMessage(keys[i]);
        WordInMessage(keys[i]);
        assert forall j :: 0 <= j < |keys| && FirstInvalid(keys, j) ==> j == i;
      }
  }
}
