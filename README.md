# PythonMonkey bridge core, modelled in Dafny

PythonMonkey embeds the SpiderMonkey JavaScript engine in CPython. This project
models three sequential pieces of that bridge and proves what they promise:

- **The bytes proxy** (`src/PyBytesProxyHandler.cc`), which shows an immutable
  Python `bytes` object to JavaScript as a `Uint8Array`-like object:
  - `valueOf`/`toString` are one loop method (`BytesProxy.ValueOf`). It is
    proved to produce `Joined(bytes)`, the comma-joined decimal rendering,
    and that string is proved to read back as exactly the bytes.
  - `getOwnPropertyDescriptor` is a pure dispatch (`BytesProxy.GetOwnPropertyDescriptor`)
    returning a `Descriptor` outcome. Lemmas state its precedence: method
    names, then synthetic properties, then symbols, then the numeric index,
    then the host attribute fallback.
  - `set` rejects every write (`BytesProxy.Set`).
  - The `BytesIterator` companion is a class (`BytesIterator.BytesIterator`)
    whose reserved slots are fields; the cursor is the one mutable field.
    `Next` is proved against the step function `Step`. Lemmas show a fresh
    iterator yields every item in index order and then `done` for ever.
- **The liveness table** (`src/modules/pythonmonkey/pythonmonkey.cc`).
  `PyTypeToGCThing` maps a Python wrapper (`PyType *`) to the list of rooted
  engine values (`PersistentRooted *`) it keeps alive; a `Handle` stands for one allocation of such a root, not for its address. It is the `entries`
  field of class `PythonMonkeyGc.GcThingTable`. Each `delete` of a handle is
  recorded in a ghost multiset `released`.
  - `memoizePyTypeAndGCThing` is `Memoize`.
  - The collector hook `handleSharedPythonMonkeyMemory` is `HandleSharedMemory`.
    Its loop picks the next unvisited entry with `:|`, so everything it
    promises holds for every visiting order. The source walks a
    `std::unordered_map`, whose order is unspecified.
  - Whether a wrapper is retiring (finalized by Python, or reference count 1)
    is a parameter, `retiring`.
- **The engine-exception text** (`src/setSpiderMonkeyException.cc`).
  `SetSpiderMonkeyException` builds the string by appends, as the source's
  `stringstream` does. It is proved equal to one of the three fixed messages
  or to `Layout(f)`. Lemmas about `Layout` pin down the header, the caret
  column, the message line and the trailing stack section.

`common.dfy` holds what the three share: `Option`, `Byte`, the decimal
rendering that `std::to_string` and `operator<<` give a non-negative integer
(with its inverse `ParseDecimal`), the int32 narrowing of a `size_t`, the
space run of `std::string(n, ' ')` and the `%.100s` truncation.

## Model

| member | source | states |
|---|---|---|
| `Common.WrapInt32` | src/PyBytesProxyHandler.cc:296-300 | The int32 that a `size_t` length becomes: it lies in [-2^31, 2^31), agrees with the length modulo 2^32, and equals the length whenever the length is below 2^31. |
| `Common.Decimal` | src/PyBytesProxyHandler.cc:47 | The `std::to_string` rendering: at least one character, only digits, a leading `0` only for zero, one digit exactly below ten. |
| `Common.DecimalRoundTrip` | src/PyBytesProxyHandler.cc:47 | Parsing a decimal rendering gives back the number rendered. |
| `Common.DecimalInjective` | src/PyBytesProxyHandler.cc:47 | Different numbers have different renderings. |
| `Common.Spaces` | src/setSpiderMonkeyException.cc:53 | `offsetSpaces` has exactly `tokenOffset` characters, all spaces. |
| `Common.Truncate` | src/PyBytesProxyHandler.cc:253-255 | `%.100s` prints a prefix of the type name: all of it if it is at most 100 bytes long, else its first 100 bytes (the name is held as the bytes of the UTF-8 `tp_name`, one character per byte). |
| `BytesProxy.ValueOf` | src/PyBytesProxyHandler.cc:40-50 | The loop's string is `Joined(bytes)`: each byte's decimal rendering, in order, with a comma before every byte but the first. |
| `BytesProxy.ToString` | src/PyBytesProxyHandler.cc:54-56 | `toString` gives the same string as `valueOf`. |
| `BytesProxy.JoinedFields` | src/PyBytesProxyHandler.cc:42-48 | For a non-empty buffer, splitting the string at its commas gives exactly the decimal rendering of each byte, in order. So there is no leading or trailing comma, and exactly one comma between neighbours. |
| `BytesProxy.JoinedEmpty` | src/PyBytesProxyHandler.cc:40-48 | The string is empty exactly when the buffer has no bytes. |
| `BytesProxy.JoinedRoundTrip` | src/PyBytesProxyHandler.cc:40-50 | `valueOf` loses nothing: parsing its string gives back exactly the buffer's bytes. |
| `BytesProxy.NewIterator` | src/PyBytesProxyHandler.cc:208-219 | `array_iterator_func` returns a new iterator over the proxy's bytes, with cursor 0 and the requested item kind. |
| `BytesProxy.Entries` | src/PyBytesProxyHandler.cc:222-224 | `entries()` returns a new iterator with cursor 0 and kind key-and-value. |
| `BytesProxy.Keys` | src/PyBytesProxyHandler.cc:226-228 | `keys()` returns a new iterator with cursor 0 and kind key. |
| `BytesProxy.Values` | src/PyBytesProxyHandler.cc:230-232 | `values()` returns a new iterator with cursor 0 and kind value. |
| `BytesProxy.Set` | src/PyBytesProxyHandler.cc:245-258 | Every write fails as read-only, whatever the key and the value. The TypeError names the host type, truncated to 100 characters. Nothing else changes. |
| `BytesProxy.FindMethod` | src/PyBytesProxyHandler.cc:266-284 | The scan of `array_methods` finds nothing exactly when no entry has that name. When it finds one, the method is in the table and has that name. |
| `BytesProxy.FindMethodByName` | src/PyBytesProxyHandler.cc:235-242 | Looking up the name of any of the five methods finds that method. |
| `BytesProxy.GetOwnPropertyDescriptor` | src/PyBytesProxyHandler.cc:260-408 | A key that gets past the method, synthetic and symbol steps yields the byte at its index, or the attribute fallback when it is not an index. No other key yields either outcome. |
| `BytesProxy.MethodNamesFirst` | src/PyBytesProxyHandler.cc:265-285 | `toString`, `valueOf`, `entries`, `keys` and `values` resolve to their native function, whatever the index conversion would make of the key. |
| `BytesProxy.SyntheticNotMethod` | src/PyBytesProxyHandler.cc:287-339 | No synthetic property name is also a method name, so the synthetic step is reachable for each of them. |
| `BytesProxy.SyntheticProperties` | src/PyBytesProxyHandler.cc:287-362 | `length` and `byteLength` are both the buffer length (as an int32; the plain length below 2^31). `BYTES_PER_ELEMENT` is 1, `byteOffset` is 0, `buffer` is the ArrayBuffer and `constructor` is the Uint8Array constructor. |
| `BytesProxy.SymbolLookup` | src/PyBytesProxyHandler.cc:365-382 | The iterator symbol gives the `values` factory. Every other symbol succeeds with no descriptor. No symbol reaches the index or attribute step. |
| `BytesIterator.BytesIterator.constructor` | src/PyBytesProxyHandler.cc:214-216 | A new iterator holds the iterated bytes, cursor 0 and the given item kind. |
| `BytesIterator.BytesIterator.Next` | src/PyBytesProxyHandler.cc:92-139 | At or past the length: `done`, with no value and the cursor unchanged. Otherwise the cursor advances by exactly one, and the value is chosen by kind, using the old cursor: the byte for the value kind, `[index, byte]` for key-and-value, and the index for any other kind. |
| `BytesIterator.TerminalAbsorbing` | src/PyBytesProxyHandler.cc:94-100 | Once the cursor has reached the length, every later call yields `done` and leaves the cursor where it is. |
| `BytesIterator.RunFrom` | src/PyBytesProxyHandler.cc:92-136 | From cursor c, `next()` walks indices c, c+1, … to the end, in order, then yields `done` however many more times it is called. |
| `BytesIterator.FullIteration` | src/PyBytesProxyHandler.cc:92-136 | A fresh iterator called \|bytes\| + k times yields every item in index order, then `done` k times. |
| `PythonMonkeyGc.Memoized` | src/modules/pythonmonkey/pythonmonkey.cc:59-70 | An unseen wrapper gets an entry holding exactly `[handle]`. A known wrapper gets the handle appended at the end of its list. No other entry changes. |
| `PythonMonkeyGc.MemoizedLists` | src/modules/pythonmonkey/pythonmonkey.cc:59-70 | After memoizing, the table lists exactly the handles it listed before, plus the new one. |
| `PythonMonkeyGc.ReleasedFromMembers` | src/modules/pythonmonkey/pythonmonkey.cc:31-42 | Processing a retiring entry releases exactly those of its handles that no other entry lists. |
| `PythonMonkeyGc.ReleasedFromOnce` | src/modules/pythonmonkey/pythonmonkey.cc:31-42 | If the entry's list has no duplicates, processing it releases each handle at most once. |
| `PythonMonkeyGc.SharedHandleDeferred` | src/modules/pythonmonkey/pythonmonkey.cc:31-44 | A handle listed by two retiring entries survives the first being processed, and is released when the second is. |
| `PythonMonkeyGc.GcThingTable.constructor` | src/modules/pythonmonkey/pythonmonkey.cc:22 | The table starts empty, with nothing released. |
| `PythonMonkeyGc.GcThingTable.Memoize` | src/modules/pythonmonkey/pythonmonkey.cc:59-70 | The table becomes `Memoized(old table, w, h)`, and no handle is released. The invariant "no listed handle is released" is kept. |
| `PythonMonkeyGc.GcThingTable.ListedElsewhere` | src/modules/pythonmonkey/pythonmonkey.cc:32-38 | The inner scan answers true exactly when some entry other than the one being processed lists the handle. |
| `PythonMonkeyGc.GcThingTable.Retire` | src/modules/pythonmonkey/pythonmonkey.cc:31-44 | The entry is erased. The handles released are exactly its handles that no other entry in the current table lists, each as often as the list holds it. |
| `PythonMonkeyGc.GcThingTable.HandleSharedMemory` | src/modules/pythonmonkey/pythonmonkey.cc:24-51 | Unless the status is GC begin, nothing changes. At GC begin, in any visiting order: (1) exactly the retiring entries are removed; (2) surviving entries keep identical lists; (3) a handle is newly released exactly when a retiring entry listed it and no survivor does; (4) no surviving entry's handle is ever released; (5) with no duplicates inside an entry, each such handle is released exactly once. The loop terminates after visiting each entry once. |
| `PythonMonkeyGc.RetireStep` | src/modules/pythonmonkey/pythonmonkey.cc:26-49 | Retiring one entry keeps the sweep's invariant: a handle has been released so far exactly when a removed entry lists it and no remaining entry does. |
| `PythonMonkeyGc.SweepKeepsValid` | src/modules/pythonmonkey/pythonmonkey.cc:33-42 | After the scan, no handle that a remaining entry lists has been released. |
| `PythonMonkeyGc.FinalCounts` | src/modules/pythonmonkey/pythonmonkey.cc:31-44 | With no duplicates in any entry, a sweep adds each orphaned handle to the released multiset exactly once. If nothing had been released twice before, nothing has been afterwards. |
| `SpiderMonkeyException.SetSpiderMonkeyException` | src/setSpiderMonkeyException.cc:23-79 | No pending exception, no retrievable stack, or no report builder each give their fixed message. Otherwise the text is `Layout`: the report section, then the message and `\n`, then the stack section. |
| `SpiderMonkeyException.HeaderFirst` | src/setSpiderMonkeyException.cc:56 | With a report, the text begins `Error in file <filename>, on line <lineno>:\n`, where the line number is in decimal. Without one, it begins with the message line. |
| `SpiderMonkeyException.CaretColumn` | src/setSpiderMonkeyException.cc:53-65 | When the line text is non-empty, it follows the header on its own line. The next line is exactly `tokenOffset` spaces and then `^\n`. |
| `SpiderMonkeyException.NoCaretWithoutLine` | src/setSpiderMonkeyException.cc:57-65 | With a null or empty line text, there is neither an offending line nor a caret: the header runs straight into the message. |
| `SpiderMonkeyException.MessageThenStack` | src/setSpiderMonkeyException.cc:68-76 | The message and `\n` always come right after the report section, even when there is no report. What follows them is exactly the stack section. |
| `SpiderMonkeyException.StackLast` | src/setSpiderMonkeyException.cc:71-76 | Something follows the message line exactly when the stack is non-null. It is then `Stack Trace: \n` plus the stack. Without a stack, the text ends with the message line. |

## Left out

- `BytesProxy.GetOwnPropertyDescriptor`: requires the index conversion's result to be in range whenever the lookup reaches the index step. The source reads `data[index]` with no range check (src/PyBytesProxyHandler.cc:386-396). Whether an out-of-range index can get there depends on `idToIndex`, which is not part of this model. Falling through to the attribute lookup for an out-of-range index is therefore not modelled.
- `BytesIterator.BytesIterator.Next`: the cursor is an unbounded `nat`. The source keeps it in an int32 slot, and overflow for buffers of 2^31 bytes or more is not modelled.
- `PythonMonkeyGc.GcThingTable.Memoize`: requires that the handle has not been released yet. A `Handle` is the identity of one allocation: each `new JS::PersistentRooted` (src/modules/pythonmonkey/pythonmonkey.cc:107) gives a handle distinct from every earlier one, even when the allocator reuses the address of a root already deleted by the sweep. Address reuse after `delete` is abstracted away. Every caller passes a root it has just allocated; the source itself does not check.
- `idToIndex`, `idToKey`, `PyObject_GetAttr` and `handleGetOwnPropertyDescriptor` are not part of this model. The index conversion is an input (`index: Option<int>`), and the fallback is the opaque outcome `AttrFallback`.
- The `constructor` lookup through `JS_GetClassPrototype` is the opaque outcome `CtorSpoof`. The `buffer` object is `BufferObj`.
- Property attributes (enumerable or not) of the returned descriptors are not modelled, only their values.
- Engine failures are not modelled: `ToObject`, `computeThis`, `ToInt32`, `JS_SetProperty`, `JS_NewFunction`, `JS_GetProperty` or `JS::Construct` returning false. Each of these only propagates `false` to the engine.
- Out-of-memory results the source does not check are not modelled either; on those paths the source dereferences a null pointer. In `iterator_next` the result of `JS_NewPlainObject` (src/PyBytesProxyHandler.cc:90) goes unchecked into `JS_SetProperty` (lines 97, 105), and the array from `JS::NewArrayObject` (line 129) is dereferenced at line 130. In `getOwnPropertyDescriptor`, `toObjectOrNull()` (line 352) is dereferenced at line 356.
- A failing `JS_StringEqualsAscii` or `JS_StringEqualsLiteral` (src/PyBytesProxyHandler.cc:272, 291-339) counts as "no match" in the source rather than an error; the model has no failing comparison, so it compares names exactly.
- The lazy registration of the `BytesIterator` class (`DefineBytesIterator`, `BytesIteratorConstructor`, `JS_InitClass`) is engine plumbing. The model's constructor stands for the constructed object with its three slots set.
- `finalize` only releases memory.
- `set` records its `TypeError` with `PyErr_Format`. The model returns the error text instead of setting interpreter state. The byte buffer is a value, so it cannot be changed.
- Python reference counts and `PyObject_GC_IsFinalized` are abstracted as the parameter `retiring`. The `delete` of a `PersistentRooted` is abstracted as adding the handle to the ghost multiset `released`. Collection timing is not modelled.
- The UTF-16 to UTF-8 conversion of the offending line and `BuildStackString` are not part of this model. Both arrive already converted, as strings. The exception text is returned rather than raised as `SpiderMonkeyError`.
- `eval`, `PyInit_pythonmonkey`, `cleanup`, `collect` and `asUCS4` (src/modules/pythonmonkey/pythonmonkey.cc:53-216) are glue over foreign engine and interpreter calls, with floating-point and string coercions.

## Notes

- The sweep only releases a handle once if no entry lists it twice. The
  inner scan skips the entry being processed as a whole
  (`innerPyIt != pyIt`), so a handle that appears twice in one retiring
  entry's list, and in no other entry, is deleted twice.
  `HandleSharedMemory` therefore states exactly-once release under
  `NoDuplicates`. Without that condition it states only which handles are
  released.
- The item kind is kept as the source's integer, not as an enumeration.
  This makes the final `else` branch of `iterator_next`, which treats any
  kind other than value or key-and-value as the key kind, part of the model.
- `getOwnPropertyDescriptor` reads `data[index]` without a range check
  (src/PyBytesProxyHandler.cc:386-396), so an out-of-range integer key reads
  past the buffer. The model excludes that case through the requires of
  `GetOwnPropertyDescriptor` (see "Left out").
- The iterator's reserved slot holds the proxy's own `PersistentRootedObject *`
  (src/PyBytesProxyHandler.cc:212-214) as an untraced private value, and the
  proxy's `finalize` deletes that object (src/PyBytesProxyHandler.cc:413-414).
  An iterator that outlives its proxy would therefore dereference a freed root
  in `next()` (src/PyBytesProxyHandler.cc:80-81). The model copies the bytes
  into the iterator (`iterated`), so it does not capture this lifetime
  dependency.
