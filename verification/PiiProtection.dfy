// Field-level encryption of event details (contextual_orchestrator/pii_protection.py).
// AES-GCM is an ideal cipher: a sealed value opens under its own key, nonce and context only.

module PiiProtection {
  import opened Prelude

  type Bytes = seq<nat>

  const RESERVED_KEY := "__encrypted_fields__"
  const ALGORITHM := "AES-256-GCM"
  const CONTEXT := "contextual-orchestrator:event-detail"
  const LEGACY_VERSION := 1
  const VERSION := 2

  // ----- the authenticated context -------------------------------------------------------------

  const HEX := "0123456789abcdef"

  // One character inside a JSON string, section 7 of RFC 8259; only what must be escaped is.
  function EscapedChar(c: char): string {
    var code := c as int;
    if c == '"' then "\\\""
    else if c == '\\' then "\\\\"
    else if code >= 0x20 then [c]
    else if code == 8 then "\\b"
    else if code == 9 then "\\t"
    else if code == 10 then "\\n"
    else if code == 12 then "\\f"
    else if code == 13 then "\\r"
    else "\\u00" + [HEX[code / 16], HEX[code % 16]]
  }

  function Escaped(text: string): string {
    if text == "" then "" else EscapedChar(text[0]) + Escaped(text[1..])
  }

  function JsonString(text: string): string {
    "\"" + Escaped(text) + "\""
  }

  function LegacyContext(keyName: string, field: string): string {
    CONTEXT + ":" + keyName + ":" + field
  }

  function ArrayContext(keyName: string, field: string): string {
    "[" + JsonString(CONTEXT) + "," + JsonString(keyName) + "," + JsonString(field) + "]"
  }

  datatype ContextError = Invalid | Ambiguous | Unsupported

  function FieldAad(keyName: string, field: string, version: int): Result<Bytes, ContextError> {
    if keyName == "" || field == "" then Err(Invalid)
    else if version == LEGACY_VERSION then
      if ':' in keyName || ':' in field then Err(Ambiguous) else Ok(Utf8(LegacyContext(keyName, field)))
    else if version == VERSION then Ok(Utf8(ArrayContext(keyName, field)))
    else Err(Unsupported)
  }

  // Which contexts there are: of the two versions, with a key name and a field that are not
  // empty, and without a colon in either for the first version.
  lemma ContextExistsIff(keyName: string, field: string, version: int)
    ensures FieldAad(keyName, field, version).Ok? <==>
      keyName != "" && field != "" && (version == 2 || (version == 1 && ':' !in keyName && ':' !in field))
  {
  }

  ghost predicate Plain(text: string) {
    forall i :: 0 <= i < |text| ==> text[i] != '"' && text[i] != '\\' && text[i] as int >= 0x20
  }

  lemma {:induction false} PlainIsItself(text: string)
    requires Plain(text)
    ensures Escaped(text) == text
  {
    if text != "" {
      assert text == [text[0]] + text[1..];
      PlainIsItself(text[1..]);
    }
  }

  // What they look like where nothing needs escaping.
  lemma PlainContexts(keyName: string, field: string)
    requires Plain(keyName) && Plain(field) && keyName != "" && field != ""
    ensures FieldAad(keyName, field, 2) == Ok(Utf8("[\"" + CONTEXT + "\",\"" + keyName + "\",\"" + field + "\"]"))
    ensures ':' !in keyName && ':' !in field ==> FieldAad(keyName, field, 1) == Ok(Utf8(CONTEXT + ":" + keyName + ":" + field))
    ensures CONTEXT == "contextual-orchestrator:event-detail"
  {
    hide Utf8, Escaped;
    PlainIsItself(CONTEXT);
    PlainIsItself(keyName);
    PlainIsItself(field);
    assert ArrayContext(keyName, field) == "[\"" + CONTEXT + "\",\"" + keyName + "\",\"" + field + "\"]" by {
      QuotedThree(CONTEXT, keyName, field);
    }
  }

  lemma QuotedThree(a: string, b: string, c: string)
    ensures "[" + ("\"" + a + "\"") + "," + ("\"" + b + "\"") + "," + ("\"" + c + "\"") + "]"
         == "[\"" + a + "\",\"" + b + "\",\"" + c + "\"]"
  {
  }

  // What an escaped character looks like: itself, or a backslash, a letter and for some more.
  lemma EscapeShape(c: char)
    ensures EscapedChar(c) != "" && EscapedChar(c)[0] != '"'
    ensures |EscapedChar(c)| == 1 <==> EscapedChar(c)[0] != '\\'
    ensures |EscapedChar(c)| > 1 ==>
      (|EscapedChar(c)| == 6 <==> EscapedChar(c)[1] == 'u') && (|EscapedChar(c)| == 2 <==> EscapedChar(c)[1] != 'u')
  {
  }

  lemma HexDigits(i: nat, j: nat)
    requires i < 16 && j < 16 && HEX[i] == HEX[j]
    ensures i == j
  {
  }

  lemma EscapedCharIsInjective(c: char, d: char)
    requires EscapedChar(c) == EscapedChar(d)
    ensures c == d
  {
    var m, n := c as int, d as int;
    EscapeShape(c);
    EscapeShape(d);
    if |EscapedChar(c)| == 6 {
      assert EscapedChar(c)[4] == HEX[m / 16] && EscapedChar(c)[5] == HEX[m % 16];
      assert EscapedChar(d)[4] == HEX[n / 16] && EscapedChar(d)[5] == HEX[n % 16];
      HexDigits(m / 16, n / 16);
      HexDigits(m % 16, n % 16);
    } else if |EscapedChar(c)| == 2 {
      assert EscapedChar(c)[1] == EscapedChar(d)[1];
    }
  }

  lemma EscapedCharIsPrefixFree(c: char, d: char, x: string, y: string)
    requires EscapedChar(c) + x == EscapedChar(d) + y
    ensures c == d && x == y
  {
    hide EscapedChar;
    var left, right := EscapedChar(c) + x, EscapedChar(d) + y;
    EscapeShape(c);
    EscapeShape(d);
    assert left[0] == EscapedChar(c)[0] && right[0] == EscapedChar(d)[0];
    if |EscapedChar(c)| > 1 { assert left[1] == EscapedChar(c)[1] && right[1] == EscapedChar(d)[1]; }
    assert EscapedChar(c) == left[..|EscapedChar(c)|] && EscapedChar(d) == right[..|EscapedChar(d)|];
    EscapedCharIsInjective(c, d);
    assert x == left[|EscapedChar(c)|..] && y == right[|EscapedChar(d)|..];
  }

  lemma FirstEscaped(text: string, after: string)
    ensures (Escaped(text) + "\"" + after)[0] == '"' <==> text == ""
  {
    if text != "" { EscapeShape(text[0]); }
  }

  // A JSON string ends where it ends: whatever follows, the text can be read back.
  lemma {:induction false} EscapedEndsOnce(a: string, b: string, x: string, y: string)
    requires Escaped(a) + "\"" + x == Escaped(b) + "\"" + y
    ensures a == b && x == y
  {
    hide EscapedChar;
    var left, right := Escaped(a) + "\"" + x, Escaped(b) + "\"" + y;
    FirstEscaped(a, x);
    FirstEscaped(b, y);
    if a == "" || b == "" {
      assert x == left[|Escaped(a)| + 1..] && y == right[|Escaped(b)| + 1..];
    } else {
      var restA, restB := Escaped(a[1..]) + "\"" + x, Escaped(b[1..]) + "\"" + y;
      assert left == EscapedChar(a[0]) + restA && right == EscapedChar(b[0]) + restB;
      EscapedCharIsPrefixFree(a[0], b[0], restA, restB);
      EscapedEndsOnce(a[1..], b[1..], x, y);
      assert a == [a[0]] + a[1..] && b == [b[0]] + b[1..];
    }
  }

  lemma ArrayContextIsInjective(k1: string, f1: string, k2: string, f2: string)
    requires ArrayContext(k1, f1) == ArrayContext(k2, f2)
    ensures k1 == k2 && f1 == f2
  {
    hide Escaped;
    var head := "[" + JsonString(CONTEXT) + "," + "\"";
    var x, y := ",\"" + Escaped(f1) + "\"]", ",\"" + Escaped(f2) + "\"]";
    var left, right := Escaped(k1) + "\"" + x, Escaped(k2) + "\"" + y;
    assert ArrayContext(k1, f1) == head + left;
    assert ArrayContext(k2, f2) == head + right;
    assert left == ArrayContext(k1, f1)[|head|..] && right == ArrayContext(k2, f2)[|head|..];
    EscapedEndsOnce(k1, k2, x, y);
    assert x[2..] == Escaped(f1) + "\"" + "]" && y[2..] == Escaped(f2) + "\"" + "]";
    EscapedEndsOnce(f1, f2, "]", "]");
  }

  lemma LegacyContextIsInjective(k1: string, f1: string, k2: string, f2: string)
    requires ':' !in k1 && ':' !in k2
    requires LegacyContext(k1, f1) == LegacyContext(k2, f2)
    ensures k1 == k2 && f1 == f2
  {
    var head := CONTEXT + ":";
    var left, right := k1 + ":" + f1, k2 + ":" + f2;
    assert LegacyContext(k1, f1) == head + left && LegacyContext(k2, f2) == head + right;
    assert left == LegacyContext(k1, f1)[|head|..] && right == LegacyContext(k2, f2)[|head|..];
    assert left[|k1|] == ':' && right[|k2|] == ':';
    assert forall i :: 0 <= i < |k1| ==> left[i] == k1[i];
    assert forall i :: 0 <= i < |k2| ==> right[i] == k2[i];
    assert |k1| == |k2|;
    assert k1 == left[..|k1|] && k2 == right[..|k2|];
    assert f1 == left[|k1| + 1..] && f2 == right[|k2| + 1..];
  }

  // Over everything accepted, one context belongs to one version, key name and field.
  lemma ContextIsInjective(k1: string, f1: string, v1: int, k2: string, f2: string, v2: int)
    requires FieldAad(k1, f1, v1).Ok? && FieldAad(k1, f1, v1) == FieldAad(k2, f2, v2)
    ensures k1 == k2 && f1 == f2 && v1 == v2
  {
    hide Utf8, ArrayContext, LegacyContext;
    var left := if v1 == VERSION then ArrayContext(k1, f1) else LegacyContext(k1, f1);
    var right := if v2 == VERSION then ArrayContext(k2, f2) else LegacyContext(k2, f2);
    Utf8IsInjective(left, right);
    FirstOfContext(k1, f1);
    FirstOfContext(k2, f2);
    if v1 == VERSION {
      ArrayContextIsInjective(k1, f1, k2, f2);
    } else {
      LegacyContextIsInjective(k1, f1, k2, f2);
    }
  }

  lemma FirstOfContext(keyName: string, field: string)
    ensures ArrayContext(keyName, field) != "" && ArrayContext(keyName, field)[0] == '['
    ensures LegacyContext(keyName, field) != "" && LegacyContext(keyName, field)[0] == 'c'
  {
  }

  // Why version 1 must refuse colons: without that, two contexts collide.
  lemma ColonsWouldCollide(a: string, b: string, c: string)
    ensures LegacyContext(a + ":" + b, c) == LegacyContext(a, b + ":" + c)
  {
    assert CONTEXT + ":" + (a + ":" + b) + ":" + c == CONTEXT + ":" + a + ":" + (b + ":" + c);
  }

  // ----- details and envelopes -----------------------------------------------------------------

  type CipherKey = Bytes
  type Nonce = Bytes

  // A ciphertext of the ideal cipher.
  datatype Sealed = Sealed(key: CipherKey, nonce: Nonce, aad: Bytes, plaintext: Bytes)

  function Open(key: CipherKey, nonce: Nonce, aad: Bytes, sealed: Sealed): Option<Bytes> {
    if sealed.key == key && sealed.nonce == nonce && sealed.aad == aad then Some(sealed.plaintext) else None
  }

  datatype Envelope = Envelope(nonce: Nonce, sealed: Sealed)

  // `fields` is None where it is not an object, and an entry is None where it is not a
  // readable envelope.
  datatype Metadata = Metadata(version: int, algorithm: string, keyName: string, fields: Option<map<string, Option<Envelope>>>)

  // A dictionary key: a string; a number or boolean, by the text JSON writes for it; None; or
  // something JSON cannot write as a key.
  datatype Key = TextKey(text: string) | NumberKey(literal: string) | NullKey | OddKey(description: string)

  // What a detail may hold. Scalars are the strings, numbers and booleans JSON writes and gives
  // back; an opaque value is one it cannot write; a described one is a dictionary in the shape
  // of encryption metadata.
  datatype Value =
    | Null
    | Scalar(json: string)
    | Opaque(description: string)
    | Listed(items: seq<Value>)
    | Tupled(items: seq<Value>)
    | Keyed(entries: map<Key, Value>)
    | Described(metadata: Metadata)

  type Detail = map<string, Value>

  // ----- through JSON and back -----------------------------------------------------------------

  predicate TextKeys(keys: set<Key>) { forall k :: k in keys ==> k.TextKey? }
  predicate NumberKeys(keys: set<Key>) { forall k :: k in keys ==> k.NumberKey? }
  predicate NullKeys(keys: set<Key>) { forall k :: k in keys ==> k.NullKey? }

  // json.dumps with sort_keys: keys of different kinds cannot be sorted.
  predicate Serialisable(v: Value) {
    match v
    case Null => true
    case Scalar(_) => true
    case Opaque(_) => false
    case Listed(items) => forall i :: 0 <= i < |items| ==> Serialisable(items[i])
    case Tupled(items) => forall i :: 0 <= i < |items| ==> Serialisable(items[i])
    case Keyed(entries) =>
      && (TextKeys(entries.Keys) || NumberKeys(entries.Keys) || NullKeys(entries.Keys))
      && forall k :: k in entries ==> Serialisable(entries[k])
    case Described(_) => true
  }

  // The values JSON has: no tuple and no key but strings, at any depth.
  predicate IsJson(v: Value) {
    match v
    case Null => true
    case Scalar(_) => true
    case Opaque(_) => false
    case Listed(items) => forall i :: 0 <= i < |items| ==> IsJson(items[i])
    case Tupled(_) => false
    case Keyed(entries) => TextKeys(entries.Keys) && forall k :: k in entries ==> IsJson(entries[k])
    case Described(_) => true
  }

  function WrittenKey(k: Key): Key {
    match k
    case NumberKey(literal) => TextKey(literal)
    case NullKey => TextKey("null")
    case _ => k
  }

  function WrittenKeys(keys: set<Key>): set<Key> {
    set k | k in keys :: WrittenKey(k)
  }

  // The key a written key comes from; with one kind of key there is only one.
  function OriginalKey(keys: set<Key>, written: Key): (k: Key)
    requires written in WrittenKeys(keys)
    ensures k in keys && WrittenKey(k) == written
    ensures TextKeys(keys) || NumberKeys(keys) || NullKeys(keys) ==>
      forall l :: l in keys && WrittenKey(l) == written ==> l == k
  {
    if written in keys && WrittenKey(written) == written then written
    else if written.TextKey? && NumberKey(written.text) in keys then NumberKey(written.text)
    else NullKey
  }

  // The JSON value a serialisable value is written as: tuples become lists, keys strings.
  function AsJson(v: Value): Value
    requires Serialisable(v)
  {
    match v
    case Listed(items) => Listed(seq(|items|, i requires 0 <= i < |items| => AsJson(items[i])))
    case Tupled(items) => Listed(seq(|items|, i requires 0 <= i < |items| => AsJson(items[i])))
    case Keyed(entries) => Keyed(map j | j in WrittenKeys(entries.Keys) :: AsJson(entries[OriginalKey(entries.Keys, j)]))
    case _ => v
  }

  // The entries of a written dictionary, key by key.
  lemma WrittenEntries(entries: map<Key, Value>)
    requires Serialisable(Keyed(entries))
    ensures AsJson(Keyed(entries)).Keyed?
    ensures var written := AsJson(Keyed(entries)).entries;
      && (forall k :: k in entries ==> WrittenKey(k) in written && written[WrittenKey(k)] == AsJson(entries[k]))
      && (forall j :: j in written ==> exists k :: k in entries && WrittenKey(k) == j)
      && TextKeys(written.Keys)
  {
    var written := AsJson(Keyed(entries)).entries;
    forall k | k in entries ensures WrittenKey(k) in written && written[WrittenKey(k)] == AsJson(entries[k]) {
      assert k in entries.Keys && WrittenKey(k) in WrittenKeys(entries.Keys);
      assert OriginalKey(entries.Keys, WrittenKey(k)) == k;
    }
    forall j | j in written ensures j.TextKey? {
      var k :| k in entries && WrittenKey(k) == j;
      assert k in entries.Keys;
    }
  }

  lemma {:induction false} AsJsonIsJson(v: Value)
    requires Serialisable(v)
    ensures IsJson(AsJson(v))
  {
    match v
    case Listed(items) =>
      forall i | 0 <= i < |items| ensures IsJson(AsJson(items[i])) { AsJsonIsJson(items[i]); }
    case Tupled(items) =>
      forall i | 0 <= i < |items| ensures IsJson(AsJson(items[i])) { AsJsonIsJson(items[i]); }
    case Keyed(entries) =>
      forall k | k in entries ensures IsJson(AsJson(entries[k])) { AsJsonIsJson(entries[k]); }
      WrittenEntries(entries);
      var written := AsJson(v).entries;
      forall j | j in written ensures IsJson(written[j]) {
        var k :| k in entries && WrittenKey(k) == j;
      }
    case _ =>
  }

  lemma TextEntriesStay(entries: map<Key, Value>)
    requires Serialisable(Keyed(entries)) && TextKeys(entries.Keys)
    requires forall k :: k in entries ==> AsJson(entries[k]) == entries[k]
    ensures AsJson(Keyed(entries)) == Keyed(entries)
  {
    WrittenEntries(entries);
    var written := AsJson(Keyed(entries)).entries;
    forall k | k in entries ensures WrittenKey(k) == k { assert k in entries.Keys; }
    forall j | j in written ensures j in entries && written[j] == entries[j] {
      var k :| k in entries && WrittenKey(k) == j;
    }
    assert written.Keys == entries.Keys;
    assert written == entries;
  }

  // Being written and read changes a value exactly when it is not one JSON has.
  lemma {:induction false} AsJsonKeepsIff(v: Value)
    requires Serialisable(v)
    ensures AsJson(v) == v <==> IsJson(v)
  {
    match v
    case Listed(items) =>
      forall i | 0 <= i < |items| ensures AsJson(items[i]) == items[i] <==> IsJson(items[i]) { AsJsonKeepsIff(items[i]); }
      if AsJson(v) == v {
        forall i | 0 <= i < |items| ensures IsJson(items[i]) { assert AsJson(v).items[i] == AsJson(items[i]); }
      }
    case Keyed(entries) =>
      forall k | k in entries ensures AsJson(entries[k]) == entries[k] <==> IsJson(entries[k]) { AsJsonKeepsIff(entries[k]); }
      AsJsonIsJson(v);
      if IsJson(v) { TextEntriesStay(entries); }
    case _ =>
  }

  // The JSON writer and reader, each any function of its input.
  datatype Codec = Codec(write: Value -> Bytes, read: Bytes -> Option<Value>)

  // A JSON value reads back as it was written; and a text that reads as a description spells
  // out its envelopes, so it is longer than anything they seal.
  ghost predicate CodecOk(c: Codec) {
    && (forall v :: IsJson(v) ==> (c.read)((c.write)(v)) == Some(v))
    && (forall b, m, f :: (c.read)(b) == Some(Described(m)) && Seals(m, f) ==>
          |m.fields.value[f].value.sealed.plaintext| < |b|)
  }

  predicate Seals(m: Metadata, f: string) {
    m.fields.Some? && f in m.fields.value && m.fields.value[f].Some?
  }

  function Dump(v: Value, c: Codec): Option<Bytes> {
    if Serialisable(v) then Some((c.write)(AsJson(v))) else None
  }

  datatype Encryptor = Encryptor(keyName: string, key: CipherKey)

  datatype PiiError =
    | BadFieldName | ReservedKey | MissingField | NotSerializable | BadContext
    | UnsupportedVersion | KeyMismatch | BadMetadata | FieldRejected

  // ----- encryption ------------------------------------------------------------------------------

  function Set<T>(s: seq<T>): set<T> {
    set x | x in s
  }

  // _field_names: the declared names once each, in order.
  function FieldNames(fields: seq<string>): Result<seq<string>, PiiError> {
    if fields == [] then Ok([])
    else
      var last := fields[|fields| - 1];
      match FieldNames(fields[..|fields| - 1])
      case Err(e) => Err(e)
      case Ok(names) =>
        if last == "" || last == RESERVED_KEY then Err(BadFieldName)
        else if last in names then Ok(names)
        else Ok(names + [last])
  }

  function Seal(e: Encryptor, name: string, value: Value, nonce: Nonce, c: Codec): Result<Envelope, PiiError> {
    match Dump(value, c)
    case None => Err(NotSerializable)
    case Some(plaintext) =>
      match FieldAad(e.keyName, name, VERSION)
      case Err(_) => Err(BadContext)
      case Ok(aad) => Ok(Envelope(nonce, Sealed(e.key, nonce, aad, plaintext)))
  }

  // The first field that cannot be sealed decides the error.
  function FirstFault(e: Encryptor, detail: Detail, names: seq<string>, nonces: string -> Nonce, c: Codec): Option<PiiError>
    requires forall n :: n in names ==> n in detail
  {
    if names == [] then None
    else
      match Seal(e, names[0], detail[names[0]], nonces(names[0]), c)
      case Err(error) => Some(error)
      case Ok(_) => FirstFault(e, detail, names[1..], nonces, c)
  }

  // What encryption makes of a detail: the named fields leave, their envelopes arrive.
  ghost predicate IsEncryptionOf(
      e: Encryptor, detail: Detail, names: seq<string>, nonces: string -> Nonce, c: Codec, result: Detail)
    requires forall n :: n in names ==> n in detail
  {
    && result.Keys == detail.Keys - Set(names) + {RESERVED_KEY}
    && (forall f :: f in result && f != RESERVED_KEY ==> f in detail && result[f] == detail[f])
    && result[RESERVED_KEY].Described?
    && result[RESERVED_KEY].metadata.version == VERSION
    && result[RESERVED_KEY].metadata.algorithm == ALGORITHM
    && result[RESERVED_KEY].metadata.keyName == e.keyName
    && result[RESERVED_KEY].metadata.fields.Some?
    && IsSealing(e, detail, names, nonces, c, result[RESERVED_KEY].metadata.fields.value)
  }

  ghost predicate IsSealing(
      e: Encryptor, detail: Detail, names: seq<string>, nonces: string -> Nonce, c: Codec, encrypted: map<string, Option<Envelope>>)
    requires forall n :: n in names ==> n in detail
  {
    && encrypted.Keys == Set(names)
    && forall n :: n in names ==>
         encrypted[n].Some? && Seal(e, n, detail[n], nonces(n), c) == Ok(encrypted[n].value)
  }

  // A field can be sealed exactly when JSON can write it and there is a context for it.
  lemma SealsIff(e: Encryptor, name: string, value: Value, nonce: Nonce, c: Codec)
    ensures Seal(e, name, value, nonce, c).Ok? <==> Serialisable(value) && e.keyName != "" && name != ""
    ensures !Serialisable(value) <==> Seal(e, name, value, nonce, c) == Err(NotSerializable)
    ensures Seal(e, name, value, nonce, c).Ok? ==> Seal(e, name, value, nonce, c).value.nonce == nonce
  {
    hide Utf8, ArrayContext, Serialisable;
  }

  // The reported fault is that of the first field that cannot be sealed.
  lemma {:induction false} FirstFaultMeans(e: Encryptor, detail: Detail, names: seq<string>, nonces: string -> Nonce, c: Codec)
    requires forall n :: n in names ==> n in detail
    ensures FirstFault(e, detail, names, nonces, c) == None <==>
      forall i :: 0 <= i < |names| ==> Seal(e, names[i], detail[names[i]], nonces(names[i]), c).Ok?
    ensures FirstFault(e, detail, names, nonces, c).Some? ==>
      exists i :: 0 <= i < |names|
        && Seal(e, names[i], detail[names[i]], nonces(names[i]), c) == Err(FirstFault(e, detail, names, nonces, c).value)
        && forall j :: 0 <= j < i ==> Seal(e, names[j], detail[names[j]], nonces(names[j]), c).Ok?
  {
    hide Seal;
    if names != [] {
      var rest := names[1..];
      FirstFaultMeans(e, detail, rest, nonces, c);
      assert forall i :: 0 < i < |names| ==> names[i] == rest[i - 1];
      if FirstFault(e, detail, rest, nonces, c).Some? && Seal(e, names[0], detail[names[0]], nonces(names[0]), c).Ok? {
        var i :| 0 <= i < |rest|
          && Seal(e, rest[i], detail[rest[i]], nonces(rest[i]), c) == Err(FirstFault(e, detail, rest, nonces, c).value)
          && forall j :: 0 <= j < i ==> Seal(e, rest[j], detail[rest[j]], nonces(rest[j]), c).Ok?;
        assert names[i + 1] == rest[i];
      }
    }
  }

  // `nonces` stands for the operating system's random bytes, one draw a field.
  method EncryptFields(e: Encryptor, detail: Detail, fields: seq<string>, nonces: string -> Nonce, c: Codec)
      returns (result: Result<Detail, PiiError>)
    ensures FieldNames(fields).Err? ==> result == Err(FieldNames(fields).error)
    ensures FieldNames(fields) == Ok([]) ==> result == Ok(detail)
    ensures FieldNames(fields).Ok? && FieldNames(fields).value != [] ==>
      var names := FieldNames(fields).value;
      if RESERVED_KEY in detail then result == Err(ReservedKey)
      else if exists n :: n in names && n !in detail then result == Err(MissingField)
      else match FirstFault(e, detail, names, nonces, c)
           case Some(error) => result == Err(error)
           case None => result.Ok? && IsEncryptionOf(e, detail, names, nonces, c, result.value)
    // it succeeds exactly for usable names that are all there and can all be written, under a
    // key with a name, in a detail that is not encrypted yet
    ensures result.Ok? <==>
      && (forall f :: f in fields ==> f != "" && f != "__encrypted_fields__")
      && (fields != [] ==> "__encrypted_fields__" !in detail && e.keyName != "")
      && (forall f :: f in fields ==> f in detail && Serialisable(detail[f]))
  {
    hide FieldNames, FirstFault, IsSealing, IsEncryptionOf, Seal, Set, Serialisable;
    FieldNamesOnce(fields);
    assert fields != [] ==> fields[0] in fields;
    assert FieldNames(fields).Ok? && fields != [] ==> fields[0] in FieldNames(fields).value;
    assert fields == [] ==> FieldNames(fields) == Ok([]) by { NoNames(); }
    if FieldNames(fields).Ok? && FieldNames(fields).value != [] && forall n :: n in FieldNames(fields).value ==> n in detail {
      SealableIff(e, detail, FieldNames(fields).value, nonces, c);
    }
    if FieldNames(fields).Err? { return Err(FieldNames(fields).error); }
    var names := FieldNames(fields).value;
    if names == [] { return Ok(detail); }
    if RESERVED_KEY in detail { return Err(ReservedKey); }
    if exists n :: n in names && n !in detail { return Err(MissingField); }
    result := SealAll(e, detail, names, nonces, c);
  }

  lemma NoNames()
    ensures FieldNames([]) == Ok([])
  {
  }

  lemma SealableIff(e: Encryptor, detail: Detail, names: seq<string>, nonces: string -> Nonce, c: Codec)
    requires names != [] && (forall n :: n in names ==> n in detail && n != "")
    ensures FirstFault(e, detail, names, nonces, c) == None <==>
      e.keyName != "" && forall n :: n in names ==> Serialisable(detail[n])
  {
    hide Seal, Serialisable, FirstFault;
    FirstFaultMeans(e, detail, names, nonces, c);
    forall i | 0 <= i < |names|
      ensures Seal(e, names[i], detail[names[i]], nonces(names[i]), c).Ok? <==> Serialisable(detail[names[i]]) && e.keyName != ""
    {
      assert names[i] in names;
      SealsIff(e, names[i], detail[names[i]], nonces(names[i]), c);
    }
    if forall i :: 0 <= i < |names| ==> Seal(e, names[i], detail[names[i]], nonces(names[i]), c).Ok? {
      assert Seal(e, names[0], detail[names[0]], nonces(names[0]), c).Ok?;
      forall n | n in names ensures Serialisable(detail[n]) {
        var i :| 0 <= i < |names| && names[i] == n;
      }
    }
  }

  // The loop over the declared names: seal one field, drop it from the detail.
  method SealAll(e: Encryptor, detail: Detail, names: seq<string>, nonces: string -> Nonce, c: Codec)
      returns (result: Result<Detail, PiiError>)
    requires RESERVED_KEY !in detail && forall n :: n in names ==> n in detail
    ensures match FirstFault(e, detail, names, nonces, c)
            case Some(error) => result == Err(error)
            case None => result.Ok? && IsEncryptionOf(e, detail, names, nonces, c, result.value)
  {
    hide FirstFault, IsSealing, IsEncryptionOf, Seal, Set;
    var remaining: Detail, encrypted: map<string, Option<Envelope>> := detail, map[];
    assert names[0..] == names && names[..0] == [];
    NothingSealed(e, detail, nonces, c);
    for i := 0 to |names|
      invariant FirstFault(e, detail, names, nonces, c) == FirstFault(e, detail, names[i..], nonces, c)
      invariant remaining == detail - Set(names[..i])
      invariant IsSealing(e, detail, names[..i], nonces, c, encrypted)
    {
      var name := names[i];
      assert names[i..][1..] == names[i + 1..];
      assert names[..i + 1] == names[..i] + [name];
      NextFault(e, detail, names[i..], nonces, c);
      match Seal(e, name, detail[name], nonces(name), c) {
        case Err(error) => return Err(error);
        case Ok(envelope) =>
          OneMoreSealed(e, detail, names[..i], nonces, c, encrypted, name);
          encrypted := encrypted[name := Some(envelope)];
          remaining := remaining - {name};
      }
    }
    assert names[..|names|] == names && names[|names|..] == [];
    AllSealed(e, detail, names, nonces, c, encrypted);
    return Ok(remaining[RESERVED_KEY := Described(Metadata(VERSION, ALGORITHM, e.keyName, Some(encrypted)))]);
  }

  lemma NothingSealed(e: Encryptor, detail: Detail, nonces: string -> Nonce, c: Codec)
    ensures IsSealing(e, detail, [], nonces, c, map[]) && detail - Set([]) == detail
  {
  }

  lemma NextFault(e: Encryptor, detail: Detail, names: seq<string>, nonces: string -> Nonce, c: Codec)
    requires names != [] && forall n :: n in names ==> n in detail
    ensures FirstFault(e, detail, names, nonces, c) ==
      match Seal(e, names[0], detail[names[0]], nonces(names[0]), c)
      case Err(error) => Some(error)
      case Ok(_) => FirstFault(e, detail, names[1..], nonces, c)
  {
  }

  lemma OneMoreSealed(
      e: Encryptor, detail: Detail, names: seq<string>, nonces: string -> Nonce, c: Codec,
      encrypted: map<string, Option<Envelope>>, name: string)
    requires name in detail && forall n :: n in names ==> n in detail
    requires IsSealing(e, detail, names, nonces, c, encrypted) && Seal(e, name, detail[name], nonces(name), c).Ok?
    ensures IsSealing(e, detail, names + [name], nonces, c,
                      encrypted[name := Some(Seal(e, name, detail[name], nonces(name), c).value)])
    ensures detail - Set(names) - {name} == detail - Set(names + [name])
  {
    hide Seal;
    assert Set(names + [name]) == Set(names) + {name};
  }

  lemma AllSealed(
      e: Encryptor, detail: Detail, names: seq<string>, nonces: string -> Nonce, c: Codec, encrypted: map<string, Option<Envelope>>)
    requires RESERVED_KEY !in detail && forall n :: n in names ==> n in detail
    requires IsSealing(e, detail, names, nonces, c, encrypted)
    ensures FirstFault(e, detail, [], nonces, c) == None
    ensures IsEncryptionOf(e, detail, names, nonces, c,
      (detail - Set(names))[RESERVED_KEY := Described(Metadata(VERSION, ALGORITHM, e.keyName, Some(encrypted)))])
  {
    hide Seal;
  }

  // ----- decryption ------------------------------------------------------------------------------

  // One envelope read back for one field, None where it is refused.
  function Opened(e: Encryptor, name: string, envelope: Option<Envelope>, version: int, c: Codec): Option<Value> {
    if envelope.None? then None
    else
      match FieldAad(e.keyName, name, version)
      case Err(_) => None
      case Ok(aad) =>
        match Open(e.key, envelope.value.nonce, aad, envelope.value.sealed)
        case None => None
        case Some(plaintext) => (c.read)(plaintext)
  }

  ghost predicate AllOpen(e: Encryptor, m: Metadata, c: Codec) {
    m.fields.Some? && forall f :: f in m.fields.value ==> Opened(e, f, m.fields.value[f], m.version, c).Some?
  }

  // A detail with its metadata gone and every opened field back in place.
  ghost predicate IsRestorationOf(e: Encryptor, detail: Detail, m: Metadata, c: Codec, result: Detail)
    requires AllOpen(e, m, c)
  {
    && result.Keys == detail.Keys - {RESERVED_KEY} + m.fields.value.Keys
    && forall f :: f in result ==>
         result[f] == if f in m.fields.value then Opened(e, f, m.fields.value[f], m.version, c).value
                      else if f in detail then detail[f] else Null
  }

  ghost predicate IsDecryption(e: Encryptor, detail: Detail, c: Codec, result: Result<Detail, PiiError>) {
    if RESERVED_KEY !in detail || detail[RESERVED_KEY] == Null then result == Ok(detail)
    else if !detail[RESERVED_KEY].Described? then result == Err(UnsupportedVersion)
    else
      var m := detail[RESERVED_KEY].metadata;
      if m.version != LEGACY_VERSION && m.version != VERSION then result == Err(UnsupportedVersion)
      else if m.algorithm != ALGORITHM || m.keyName != e.keyName then result == Err(KeyMismatch)
      else if m.fields.None? then result == Err(BadMetadata)
      else if AllOpen(e, m, c) then result.Ok? && IsRestorationOf(e, detail, m, c, result.value)
      else result == Err(FieldRejected)
  }

  // The envelopes are visited in whatever order the metadata holds them; the different ways
  // one of them can be refused are one error here.
  method DecryptFields(e: Encryptor, detail: Detail, c: Codec) returns (result: Result<Detail, PiiError>)
    ensures IsDecryption(e, detail, c, result)
  {
    hide AllOpen, IsRestorationOf, Opened;
    if RESERVED_KEY !in detail || detail[RESERVED_KEY] == Null { return Ok(detail); }
    if !detail[RESERVED_KEY].Described? { return Err(UnsupportedVersion); }
    var m := detail[RESERVED_KEY].metadata;
    if m.version != LEGACY_VERSION && m.version != VERSION { return Err(UnsupportedVersion); }
    if m.algorithm != ALGORITHM || m.keyName != e.keyName { return Err(KeyMismatch); }
    if m.fields.None? { return Err(BadMetadata); }
    result := OpenAll(e, detail, m, c);
  }

  method OpenAll(e: Encryptor, detail: Detail, m: Metadata, c: Codec) returns (result: Result<Detail, PiiError>)
    requires m.fields.Some?
    ensures if AllOpen(e, m, c) then result.Ok? && IsRestorationOf(e, detail, m, c, result.value) else result == Err(FieldRejected)
  {
    hide Opened, PartlyRestored;
    var restored, left := detail - {RESERVED_KEY}, m.fields.value.Keys;
    NothingRestored(e, detail, m, c);
    while left != {}
      invariant left <= m.fields.value.Keys
      invariant PartlyRestored(e, detail, m, c, left, restored)
      decreases |left|
    {
      var f :| f in left;
      var value := Opened(e, f, m.fields.value[f], m.version, c);
      if value.None? { return Err(FieldRejected); }
      OneMoreRestored(e, detail, m, c, left, restored, f);
      left := left - {f};
      restored := restored[f := value.value];
    }
    AllRestored(e, detail, m, c, restored);
    return Ok(restored);
  }

  ghost predicate PartlyRestored(e: Encryptor, detail: Detail, m: Metadata, c: Codec, left: set<string>, restored: Detail)
    requires m.fields.Some? && left <= m.fields.value.Keys
  {
    var done := m.fields.value.Keys - left;
    && (forall f :: f in done ==> Opened(e, f, m.fields.value[f], m.version, c).Some?)
    && restored.Keys == detail.Keys - {RESERVED_KEY} + done
    && forall f :: f in restored ==>
         restored[f] == if f in done then Opened(e, f, m.fields.value[f], m.version, c).value
                        else if f in detail then detail[f] else Null
  }

  lemma NothingRestored(e: Encryptor, detail: Detail, m: Metadata, c: Codec)
    requires m.fields.Some?
    ensures PartlyRestored(e, detail, m, c, m.fields.value.Keys, detail - {RESERVED_KEY})
  {
    hide Opened;
  }

  lemma OneMoreRestored(e: Encryptor, detail: Detail, m: Metadata, c: Codec, left: set<string>, restored: Detail, f: string)
    requires m.fields.Some? && left <= m.fields.value.Keys && f in left
    requires PartlyRestored(e, detail, m, c, left, restored)
    requires Opened(e, f, m.fields.value[f], m.version, c).Some?
    ensures PartlyRestored(e, detail, m, c, left - {f}, restored[f := Opened(e, f, m.fields.value[f], m.version, c).value])
  {
    hide Opened;
    assert m.fields.value.Keys - (left - {f}) == m.fields.value.Keys - left + {f};
  }

  lemma AllRestored(e: Encryptor, detail: Detail, m: Metadata, c: Codec, restored: Detail)
    requires m.fields.Some? && PartlyRestored(e, detail, m, c, {}, restored)
    ensures AllOpen(e, m, c) && IsRestorationOf(e, detail, m, c, restored)
  {
    hide Opened;
  }

  // ----- the round trip ----------------------------------------------------------------------------

  // A successful encryption of this detail under these declared fields.
  ghost predicate IsEncrypted(
      e: Encryptor, detail: Detail, fields: seq<string>, nonces: string -> Nonce, c: Codec, result: Detail)
  {
    && FieldNames(fields).Ok?
    && if FieldNames(fields).value == [] then result == detail
       else
         && RESERVED_KEY !in detail
         && (forall n :: n in FieldNames(fields).value ==> n in detail)
         && IsEncryptionOf(e, detail, FieldNames(fields).value, nonces, c, result)
  }

  // An opened field is what JSON makes of the field that was sealed.
  lemma SealedOpens(e: Encryptor, name: string, value: Value, nonce: Nonce, c: Codec)
    requires CodecOk(c) && Seal(e, name, value, nonce, c).Ok?
    ensures Serialisable(value)
    ensures Opened(e, name, Some(Seal(e, name, value, nonce, c).value), VERSION, c) == Some(AsJson(value))
  {
    hide FieldAad, Serialisable, AsJson, IsJson;
    if Serialisable(value) { AsJsonIsJson(value); }
  }

  // What decryption gives back for a detail encrypted under these names.
  function Restored(detail: Detail, names: seq<string>): Detail
    requires forall n :: n in names && n in detail ==> Serialisable(detail[n])
  {
    map f | f in detail :: if f in names then AsJson(detail[f]) else detail[f]
  }

  // With at least one declared field, decryption returns every undeclared field as it was and
  // every declared one as JSON writes it.
  lemma DeclaredFieldsComeBack(
      e: Encryptor, detail: Detail, names: seq<string>, nonces: string -> Nonce, c: Codec, encrypted: Detail, result: Result<Detail, PiiError>)
    requires CodecOk(c) && RESERVED_KEY !in detail && forall n :: n in names ==> n in detail
    requires IsEncryptionOf(e, detail, names, nonces, c, encrypted)
    requires IsDecryption(e, encrypted, c, result)
    ensures forall n :: n in names ==> Serialisable(detail[n])
    ensures result == Ok(Restored(detail, names))
  {
    hide Seal, Opened, CodecOk, Serialisable, AsJson;
    var m := encrypted[RESERVED_KEY].metadata;
    forall n | n in names
      ensures Serialisable(detail[n]) && Opened(e, n, m.fields.value[n], VERSION, c) == Some(AsJson(detail[n]))
    {
      SealedOpens(e, n, detail[n], nonces(n), c);
    }
    assert AllOpen(e, m, c);
    assert result.value.Keys == detail.Keys;
    assert result.value == Restored(detail, names);
  }

  // The round trip is exact when every declared field holds a JSON value, and only then.
  lemma DeclaredFieldsRoundTripIff(
      e: Encryptor, detail: Detail, names: seq<string>, nonces: string -> Nonce, c: Codec, encrypted: Detail, result: Result<Detail, PiiError>)
    requires CodecOk(c) && RESERVED_KEY !in detail && forall n :: n in names ==> n in detail
    requires IsEncryptionOf(e, detail, names, nonces, c, encrypted)
    requires IsDecryption(e, encrypted, c, result)
    ensures result == Ok(detail) <==> forall n :: n in names ==> IsJson(detail[n])
  {
    hide IsEncryptionOf, IsDecryption, CodecOk, Serialisable, AsJson, IsJson;
    DeclaredFieldsComeBack(e, detail, names, nonces, c, encrypted, result);
    forall n | n in names ensures AsJson(detail[n]) == detail[n] <==> IsJson(detail[n]) { AsJsonKeepsIff(detail[n]); }
    var restored := Restored(detail, names);
    if forall n :: n in names ==> IsJson(detail[n]) {
      assert restored == detail;
    } else {
      var n :| n in names && !IsJson(detail[n]);
      assert restored[n] != detail[n];
    }
  }

  // Decrypting what encryption returned gives the original exactly when every declared field
  // holds a JSON value and, if none was declared, the reserved key is unused: with no declared
  // field encryption hands a detail back unchecked, and decryption then takes its reserved
  // entry for metadata.
  lemma RoundTripIff(
      e: Encryptor, detail: Detail, fields: seq<string>, nonces: string -> Nonce, c: Codec, encrypted: Detail, result: Result<Detail, PiiError>)
    requires CodecOk(c)
    requires IsEncrypted(e, detail, fields, nonces, c, encrypted)
    requires IsDecryption(e, encrypted, c, result)
    ensures result == Ok(detail) <==>
      && (forall f :: f in fields ==> f in detail && IsJson(detail[f]))
      && (fields == [] ==> RESERVED_KEY !in detail || detail[RESERVED_KEY] == Null)
  {
    hide FieldAad, Seal, CodecOk, IsJson;
    FieldNamesOnce(fields);
    assert fields != [] ==> fields[0] in fields;
    var names := FieldNames(fields).value;
    if names != [] {
      assert names[0] in fields;
      DeclaredFieldsRoundTripIff(e, detail, names, nonces, c, encrypted, result);
    } else if RESERVED_KEY in detail && detail[RESERVED_KEY] != Null && result == Ok(detail) {
      NothingSealsItself(e, detail[RESERVED_KEY].metadata, c);
      assert false;
    }
  }

  // Two accepted details that come back changed: a tuple as a list, a number key as a string.
  lemma TupleAndNumberKeyComeBackChanged(x: Value)
    requires Serialisable(x)
    ensures var tuple, keyed := Tupled([x]), Keyed(map[NumberKey("1") := x]);
      && Serialisable(tuple) && AsJson(tuple) == Listed([AsJson(x)]) && !IsJson(tuple)
      && Serialisable(keyed) && AsJson(keyed) == Keyed(map[TextKey("1") := AsJson(x)]) && !IsJson(keyed)
  {
    var tuple, keyed := Tupled([x]), Keyed(map[NumberKey("1") := x]);
    assert AsJson(tuple).items == [AsJson(x)];
    assert NumberKey("1") in keyed.entries.Keys && keyed.entries.Keys == {NumberKey("1")};
    WrittenEntries(keyed.entries);
    var written := AsJson(keyed).entries;
    forall j | j in written ensures j == TextKey("1") {
      var k :| k in keyed.entries && WrittenKey(k) == j;
      assert k in keyed.entries.Keys;
    }
    assert written.Keys == {TextKey("1")};
  }

  // So the shortest detail that does not round trip: one declared field, one tuple.
  lemma TupleDoesNotRoundTrip(
      e: Encryptor, name: string, nonces: string -> Nonce, c: Codec, encrypted: Detail, result: Result<Detail, PiiError>)
    requires CodecOk(c) && IsEncrypted(e, map[name := Tupled([Scalar("1")])], [name], nonces, c, encrypted)
    requires IsDecryption(e, encrypted, c, result)
    ensures result == Ok(map[name := Listed([Scalar("1")])]) && result.value[name] != Tupled([Scalar("1")])
  {
    hide IsEncryptionOf, IsDecryption, CodecOk;
    var detail: Detail := map[name := Tupled([Scalar("1")])];
    FieldNamesOnce([name]);
    var names := FieldNames([name]).value;
    assert name in [name] && names != [];
    DeclaredFieldsComeBack(e, detail, names, nonces, c, encrypted, result);
    assert AsJson(detail[name]).items == [Scalar("1")];
    assert Restored(detail, names) == map[name := AsJson(detail[name])];
  }

  // Mixed keys are refused.
  lemma MixedKeysAreNotSerialisable(entries: map<Key, Value>, k: Key, l: Key)
    requires k in entries && l in entries && k.TextKey? && !l.TextKey?
    ensures !Serialisable(Keyed(entries))
  {
    assert k in entries.Keys && l in entries.Keys;
  }

  // The declared names are accepted exactly when each is usable, and come out once each.
  lemma {:induction false} FieldNamesOnce(fields: seq<string>)
    ensures FieldNames(fields).Ok? <==> forall f :: f in fields ==> f != "" && f != RESERVED_KEY
    ensures FieldNames(fields).Ok? ==> Distinct(FieldNames(fields).value)
    ensures FieldNames(fields).Ok? ==> forall f :: f in FieldNames(fields).value <==> f in fields
  {
    if fields != [] {
      var front, last := fields[..|fields| - 1], fields[|fields| - 1];
      FieldNamesOnce(front);
      assert fields == front + [last] && last in fields;
      assert forall f :: f in front ==> f in fields;
    }
  }

  // Names declared once each come out as they were declared.
  lemma {:induction false} DistinctNamesStay(fields: seq<string>)
    requires Distinct(fields) && forall f :: f in fields ==> f != "" && f != RESERVED_KEY
    ensures FieldNames(fields) == Ok(fields)
  {
    if fields != [] {
      var front, last := fields[..|fields| - 1], fields[|fields| - 1];
      assert fields == front + [last] && last in fields;
      assert forall f :: f in front ==> f in fields;
      DistinctNamesStay(front);
    }
  }

  // Whatever value JSON has can be written.
  lemma {:induction false} JsonIsSerialisable(v: Value)
    requires IsJson(v)
    ensures Serialisable(v)
  {
    match v
    case Listed(items) =>
      forall i | 0 <= i < |items| ensures Serialisable(items[i]) { JsonIsSerialisable(items[i]); }
    case Keyed(entries) =>
      forall k | k in entries ensures Serialisable(entries[k]) { JsonIsSerialisable(entries[k]); }
    case _ =>
  }

  lemma NothingSealsItself(e: Encryptor, m: Metadata, c: Codec)
    requires CodecOk(c) && m.fields.Some? && RESERVED_KEY in m.fields.value
    ensures Opened(e, RESERVED_KEY, m.fields.value[RESERVED_KEY], m.version, c) != Some(Described(m))
  {
    hide FieldAad;
    assert m.fields.value[RESERVED_KEY].Some? ==> Seals(m, RESERVED_KEY);
  }

  // An envelope sealed for one field opens for no other field, key name or version.
  lemma MovedEnvelopeIsRefused(
      e: Encryptor, name: string, value: Value, nonce: Nonce, c: Codec, other: Encryptor, elsewhere: string, version: int)
    requires Seal(e, name, value, nonce, c).Ok?
    requires other.keyName != e.keyName || elsewhere != name || version != VERSION
    ensures Opened(other, elsewhere, Some(Seal(e, name, value, nonce, c).value), version, c) == None
  {
    hide FieldAad;
    if FieldAad(other.keyName, elsewhere, version) == FieldAad(e.keyName, name, VERSION) {
      ContextIsInjective(other.keyName, elsewhere, version, e.keyName, name, VERSION);
    }
  }

  // A detail whose encrypted fields were exchanged does not decrypt.
  lemma SwappedFieldsAreRefused(
      e: Encryptor, detail: Detail, names: seq<string>, nonces: string -> Nonce, c: Codec, encrypted: Detail,
      f: string, g: string, tampered: Detail, result: Result<Detail, PiiError>)
    requires RESERVED_KEY !in detail && (forall n :: n in names ==> n in detail) && f in names && g in names && f != g
    requires IsEncryptionOf(e, detail, names, nonces, c, encrypted)
    requires var m := encrypted[RESERVED_KEY].metadata;
      tampered == encrypted[RESERVED_KEY := Described(m.(fields := Some(m.fields.value[f := m.fields.value[g]])))]
    requires IsDecryption(e, tampered, c, result)
    ensures result == Err(FieldRejected)
  {
    hide Seal, Opened;
    MovedEnvelopeIsRefused(e, g, detail[g], nonces(g), c, e, f, VERSION);
    var m := tampered[RESERVED_KEY].metadata;
    assert f in m.fields.value && Opened(e, f, m.fields.value[f], m.version, c) == None;
  }
}
