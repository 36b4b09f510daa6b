/** The proxy that shows an immutable host bytes object to the engine as a
    Uint8Array-like object: its valueOf/toString rendering, its iterator
    factories, its property lookup and its refusal of every write. */
module BytesProxy {
  import opened Common
  import opened BytesIterator

  /** One proxy: the host object's bytes (reached through the ArrayBuffer kept
      in the proxy's other slot) and the name of the host object's type, held
      as the bytes of its UTF-8 C string, one character per byte. */
  datatype Proxy = Proxy(bytes: seq<Byte>, typeName: string)

  // ---------------------------------------------------------------------
  // valueOf / toString

  /** The decimal rendering of each byte, in order, joined by single commas. */
  function Joined(bytes: seq<Byte>): string
    decreases |bytes|
  {
    if |bytes| == 0 then ""
    else if |bytes| == 1 then Decimal(bytes[0])
    else Joined(bytes[..|bytes| - 1]) + "," + Decimal(bytes[|bytes| - 1])
  }

  /** array_valueOf: builds the rendering byte by byte, putting a comma before
      every byte but the first. */
  method ValueOf(p: Proxy) returns (s: string)
    ensures s == Joined(p.bytes)
  {
    var data := p.bytes;
    s := "";
    for index := 0 to |data|
      invariant s == Joined(data[..index])
    {
      if index > 0 {
        s := s + ",";
      }
      s := s + Decimal(data[index]);
      assert data[..index + 1][..index] == data[..index];
    }
    assert data[..|data|] == data;
  }

  /** array_toString: the same string as valueOf. */
  method ToString(p: Proxy) returns (s: string)
    ensures s == Joined(p.bytes)
  {
    s := ValueOf(p);
  }

  /** The comma-separated fields of a string: one more than its commas. */
  function Fields(s: string): (fs: seq<string>)
    ensures |fs| >= 1
  {
    if s == [] then [[]]
    else if s[0] == ',' then [[]] + Fields(s[1..])
    else
      var rest := Fields(s[1..]);
      [[s[0]] + rest[0]] + rest[1..]
  }

  lemma {:induction false} FieldsWithoutComma(s: string)
    requires ',' !in s
    ensures Fields(s) == [s]
  {
    if s != [] {
      assert ',' !in s[1..];
      FieldsWithoutComma(s[1..]);
      assert [s[0]] + s[1..] == s;
    }
  }

  lemma {:induction false} FieldsAppend(a: string, b: string)
    ensures Fields(a + "," + b) == Fields(a) + Fields(b)
    decreases |a|
  {
    if a == [] {
      assert a + "," + b == [','] + b;
      assert (a + "," + b)[1..] == b;
    } else {
      var t := a + "," + b;
      assert t[0] == a[0];
      assert t[1..] == a[1..] + "," + b;
      FieldsAppend(a[1..], b);
      if a[0] != ',' {
        var rest := Fields(a[1..]);
        assert Fields(t[1..]) == rest + Fields(b);
        assert [a[0]] + rest[0] + [] == [a[0]] + rest[0];
      }
    }
  }

  /** The decimal rendering of every byte, in order. */
  function Renderings(bytes: seq<Byte>): (r: seq<string>)
    ensures |r| == |bytes| && forall i :: 0 <= i < |bytes| ==> r[i] == Decimal(bytes[i])
  {
    seq(|bytes|, i requires 0 <= i < |bytes| => Decimal(bytes[i]))
  }

  /** valueOf's string, split at its commas, is the decimal rendering of each
      byte in order: so it has neither a leading nor a trailing comma, and one
      comma between consecutive bytes. */
  lemma {:induction false} JoinedFields(bytes: seq<Byte>)
    requires |bytes| > 0
    ensures Fields(Joined(bytes)) == Renderings(bytes)
    decreases |bytes|
  {
    var n := |bytes|;
    var last := Decimal(bytes[n - 1]);
    assert forall i :: 0 <= i < |last| ==> last[i] != ',';
    FieldsWithoutComma(last);
    if n > 1 {
      var front := bytes[..n - 1];
      JoinedFields(front);
      FieldsAppend(Joined(front), last);
      assert Renderings(bytes) == Renderings(front) + [last];
    }
  }

  /** A zero-length buffer renders as the empty string, and only it does. */
  lemma JoinedEmpty(bytes: seq<Byte>)
    ensures Joined(bytes) == "" <==> |bytes| == 0
  {
  }

  /** Reads one field back as a byte. */
  function ParseByte(f: string): Option<Byte> {
    match ParseDecimal(f)
    case Some(v) => if v < 256 then Some(v) else None
    case None => None
  }

  function ParseFields(fs: seq<string>): Option<seq<Byte>>
    decreases |fs|
  {
    if |fs| == 0 then Some([])
    else
      match (ParseByte(fs[0]), ParseFields(fs[1..]))
      case (Some(b), Some(rest)) => Some([b] + rest)
      case _ => None
  }

  /** Reads a valueOf string back as the bytes it renders. */
  function ParseJoined(s: string): Option<seq<Byte>> {
    if s == "" then Some([]) else ParseFields(Fields(s))
  }

  lemma {:induction false} ParseRenderings(bytes: seq<Byte>)
    ensures ParseFields(Renderings(bytes)) == Some(bytes)
    decreases |bytes|
  {
    if |bytes| > 0 {
      DecimalRoundTrip(bytes[0]);
      ParseRenderings(bytes[1..]);
      assert Renderings(bytes)[1..] == Renderings(bytes[1..]);
      assert [bytes[0]] + bytes[1..] == bytes;
    }
  }

  /** valueOf loses nothing: its string reads back as exactly the bytes. */
  lemma JoinedRoundTrip(bytes: seq<Byte>)
    ensures ParseJoined(Joined(bytes)) == Some(bytes)
  {
    JoinedEmpty(bytes);
    if |bytes| > 0 {
      JoinedFields(bytes);
      ParseRenderings(bytes);
    }
  }

  // ---------------------------------------------------------------------
  // entries / keys / values

  /** array_iterator_func: a new iterator over the proxy's bytes, cursor 0. */
  method NewIterator(p: Proxy, itemKind: int) returns (it: BytesIterator)
    ensures fresh(it)
    ensures it.iterated == p.bytes && it.nextIndex == 0 && it.itemKind == itemKind
  {
    it := new BytesIterator(p.bytes, itemKind);
  }

  method Entries(p: Proxy) returns (it: BytesIterator)
    ensures fresh(it)
    ensures it.iterated == p.bytes && it.nextIndex == 0 && it.itemKind == ITEM_KIND_KEY_AND_VALUE
  {
    it := NewIterator(p, ITEM_KIND_KEY_AND_VALUE);
  }

  method Keys(p: Proxy) returns (it: BytesIterator)
    ensures fresh(it)
    ensures it.iterated == p.bytes && it.nextIndex == 0 && it.itemKind == ITEM_KIND_KEY
  {
    it := NewIterator(p, ITEM_KIND_KEY);
  }

  method Values(p: Proxy) returns (it: BytesIterator)
    ensures fresh(it)
    ensures it.iterated == p.bytes && it.nextIndex == 0 && it.itemKind == ITEM_KIND_VALUE
  {
    it := NewIterator(p, ITEM_KIND_VALUE);
  }

  // ---------------------------------------------------------------------
  // set

  datatype ObjectOpResult = Succeeded | FailedReadOnly

  /** The host exception raised alongside a failed operation. */
  datatype HostError = TypeError(message: string)

  datatype SetOutcome = SetOutcome(result: ObjectOpResult, error: HostError)

  const READ_ONLY_SUFFIX: string := "' object has only read-only attributes"

  /** PyBytesProxyHandler::set: every write, whatever the key and the value,
      fails as read-only and raises a TypeError naming (the first 100
      bytes of) the host object's type; the proxy is left as it was. */
  function Set<V>(p: Proxy, key: PropertyKey, v: V): (r: SetOutcome)
    ensures r.result == FailedReadOnly
    ensures r.error.message == "'" + Truncate(p.typeName, 100) + READ_ONLY_SUFFIX
  {
    SetOutcome(FailedReadOnly, TypeError("'" + Truncate(p.typeName, 100) + READ_ONLY_SUFFIX))
  }

  // ---------------------------------------------------------------------
  // getOwnPropertyDescriptor

  /** The native methods, in the order of the array_methods table. */
  datatype ArrayMethod = ToStringMethod | ValueOfMethod | EntriesMethod | KeysMethod | ValuesMethod

  function MethodName(m: ArrayMethod): string {
    match m
    case ToStringMethod => "toString"
    case ValueOfMethod => "valueOf"
    case EntriesMethod => "entries"
    case KeysMethod => "keys"
    case ValuesMethod => "values"
  }

  const ARRAY_METHODS: seq<ArrayMethod> :=
    [ToStringMethod, ValueOfMethod, EntriesMethod, KeysMethod, ValuesMethod]

  /** The first method of the table whose name is the given string. */
  function FindMethod(table: seq<ArrayMethod>, name: string): (r: Option<ArrayMethod>)
    ensures r.None? <==> forall i :: 0 <= i < |table| ==> MethodName(table[i]) != name
    ensures r.Some? ==> r.value in table && MethodName(r.value) == name
    decreases |table|
  {
    if |table| == 0 then None
    else if MethodName(table[0]) == name then Some(table[0])
    else FindMethod(table[1..], name)
  }

  predicate IsMethodName(name: string) {
    FindMethod(ARRAY_METHODS, name).Some?
  }

  /** The table lists every method once, so looking a method's own name up
      finds that method. */
  lemma FindMethodByName(m: ArrayMethod)
    ensures FindMethod(ARRAY_METHODS, MethodName(m)) == Some(m)
  {
  }

  /** The synthetic well-known properties resolved after the methods. */
  predicate IsSyntheticName(name: string) {
    || name == "length" || name == "byteLength" || name == "buffer"
    || name == "BYTES_PER_ELEMENT" || name == "byteOffset" || name == "constructor"
  }

  datatype SymbolCode = IteratorSymbol | OtherSymbol(code: nat)

  /** A property key (jsid): a string, an integer or a symbol. */
  datatype PropertyKey = StringKey(name: string) | IntKey(n: int) | SymbolKey(symbol: SymbolCode)

  /** The outcome of a property lookup. */
  datatype Descriptor =
    | Method(fn: ArrayMethod)           // a freshly created native function, enumerable
    | IntVal(value: int)                // an int32 data value
    | BufferObj                         // the ArrayBuffer over the host bytes
    | CtorSpoof                         // Uint8Array.prototype.constructor, enumerable
    | NoDescriptor                      // success without a descriptor
    | IndexByte(index: int, byte: Byte) // the byte at an index
    | AttrFallback                      // handed to the host attribute lookup

  /** Whether a lookup of the key goes on to the numeric-index step: it is not
      a symbol, nor the name of a method or of a synthetic property. */
  predicate ReachesIndex(key: PropertyKey) {
    !key.SymbolKey? && !(key.StringKey? && (IsMethodName(key.name) || IsSyntheticName(key.name)))
  }

  /** PyBytesProxyHandler::getOwnPropertyDescriptor. `index` is what the
      host's idToIndex makes of the key (None when it is not an index). */
  function GetOwnPropertyDescriptor(p: Proxy, key: PropertyKey, index: Option<int>): (d: Descriptor)
    requires ReachesIndex(key) && index.Some? ==> 0 <= index.value < |p.bytes|
    // a key that reaches the numeric-index step reads the byte at the index,
    // or else falls back to the host attribute lookup
    ensures ReachesIndex(key) && index.Some? ==> d == IndexByte(index.value, p.bytes[index.value])
    ensures ReachesIndex(key) && index.None? ==> d == AttrFallback
    // and no other key does either
    ensures d.IndexByte? || d == AttrFallback <==> ReachesIndex(key)
  {
    if key.StringKey? && FindMethod(ARRAY_METHODS, key.name).Some? then
      Method(FindMethod(ARRAY_METHODS, key.name).value)
    else if key.StringKey? && (key.name == "length" || key.name == "byteLength") then
      IntVal(WrapInt32(|p.bytes|))
    else if key.StringKey? && key.name == "buffer" then
      BufferObj
    else if key.StringKey? && key.name == "BYTES_PER_ELEMENT" then
      IntVal(1)
    else if key.StringKey? && key.name == "byteOffset" then
      IntVal(0)
    else if key.StringKey? && key.name == "constructor" then
      CtorSpoof
    else if key.SymbolKey? then
      if key.symbol == IteratorSymbol then Method(ValuesMethod) else NoDescriptor
    else if index.Some? then
      IndexByte(index.value, p.bytes[index.value])
    else
      AttrFallback
  }

  /** Method names come first: they resolve to their native function whatever
      the host's index conversion would make of the key. */
  lemma MethodNamesFirst(p: Proxy, m: ArrayMethod, index: Option<int>)
    ensures GetOwnPropertyDescriptor(p, StringKey(MethodName(m)), index) == Method(m)
  {
  }

  lemma SyntheticNotMethod(name: string)
    requires IsSyntheticName(name)
    ensures !IsMethodName(name)
  {
  }

  /** The synthetic properties: length and byteLength are the buffer length
      (as an int32), BYTES_PER_ELEMENT is 1, byteOffset is 0, buffer is the
      ArrayBuffer and constructor is the Uint8Array constructor. */
  lemma SyntheticProperties(p: Proxy, index: Option<int>)
    ensures GetOwnPropertyDescriptor(p, StringKey("length"), index) == IntVal(WrapInt32(|p.bytes|))
    ensures GetOwnPropertyDescriptor(p, StringKey("byteLength"), index) == IntVal(WrapInt32(|p.bytes|))
    ensures GetOwnPropertyDescriptor(p, StringKey("buffer"), index) == BufferObj
    ensures GetOwnPropertyDescriptor(p, StringKey("BYTES_PER_ELEMENT"), index) == IntVal(1)
    ensures GetOwnPropertyDescriptor(p, StringKey("byteOffset"), index) == IntVal(0)
    ensures GetOwnPropertyDescriptor(p, StringKey("constructor"), index) == CtorSpoof
    ensures |p.bytes| < TWO_31 ==> GetOwnPropertyDescriptor(p, StringKey("length"), index) == IntVal(|p.bytes|)
  {
    SyntheticNotMethod("length");
    SyntheticNotMethod("byteLength");
    SyntheticNotMethod("buffer");
    SyntheticNotMethod("BYTES_PER_ELEMENT");
    SyntheticNotMethod("byteOffset");
    SyntheticNotMethod("constructor");
  }

  /** Symbols never reach the index or attribute steps: the iterator symbol
      gives the values-mode factory, every other symbol no descriptor. */
  lemma SymbolLookup(p: Proxy, code: SymbolCode, index: Option<int>)
    ensures GetOwnPropertyDescriptor(p, SymbolKey(code), index) ==
      if code == IteratorSymbol then Method(ValuesMethod) else NoDescriptor
  {
  }
}
