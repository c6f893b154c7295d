# In-memory Java file manager, modelled in Dafny

This project models the in-memory output store of compile-testing's
`InMemoryJavaFileManager`. The compiler asks this file manager for files. Files at output
locations (compiled classes, generated sources) are kept in memory instead of on disk.

- **`InMemoryJavaFileObject`** (`InMemoryFileObject` module) is one output file. It has
  two mutable fields: `data`, an optional byte content, and `lastModified`, a Java `long`.
  - Reads fail with `FileNotFoundException` while `data` is absent.
  - Closing an output stream or a writer is the only commit point. It replaces `data`
    wholesale and stamps `lastModified`.
  - `delete` resets both fields and always returns `true`.
  - The class has Dafny methods for every operation. Each method's contract ties the new
    state to `Apply(old(State()), op)`, where `Apply` is a pure transition function over
    the `FileState` value. The lemmas about `Apply` and `Run` (a whole history of
    operations) state the round trip, delete, rewrite and "only the last close or delete
    matters" properties.
- **`InMemoryJavaFileManager`** (`InMemoryFileManager` module) owns the cache
  `inMemoryFileObjects`. It is modelled as a `map<Uri, InMemoryJavaFileObject>` field.
  - `...ForInput` requests at output locations only look up (`getIfPresent`).
  - `...ForOutput` requests fetch or create (`getUnchecked`), whatever the location.
  - `getOutputFiles` lists every cached object.
  - `getGeneratedSourcesRenamed` walks the cache and keeps entries whose URI path starts
    with `"/SOURCE_OUTPUT"` and whose kind is `SOURCE`.
- **`Scenarios`** are client sessions that use only the contracts above. They cover
  writing a class file, probing before creating, repeated output requests, delete then
  rewrite, and the generated-sources filter.

Some helpers are defined outside the modelled file: `uriForFileObject`,
`MoreTrees.uriForJavaFileObject` and `JavaFileObjects.deduceKind`. They are deterministic
functions whose bodies are not part of this model. The manager takes them as
function-valued constants (`fileUri`, `javaFileUri`, `deduceKind`) when it is constructed.
The platform default charset is passed to the manager's constructor in the same way: a
`Charset` value holds an `encode` and a `decode` function. The manager gives it to every
file object it creates, which keeps it as a constant, so writers and readers of one run
always use the same charset. `System.currentTimeMillis()` becomes a `now: Long` parameter
of `Close`.

Facts about the code that the model keeps:
- `getFileForInput` and `getJavaFileForInput` only look up (`getIfPresent`) and never
  create an entry (`FileForInput`, `JavaFileForInput`).
- The `...ForOutput` methods do not check the location; the model does not either.
- The stamp is whatever the clock returns, so no monotonicity is claimed.

## Model

| member | source | states |
|---|---|---|
| `InMemoryFileObject.EmptyIsUnreadable` | src/main/java/com/google/testing/compile/InMemoryJavaFileManager.java:150-164 | the initial state (no data, stamp 0) satisfies the invariant, reading it fails with not-found, and its stamp is 0 |
| `InMemoryFileObject.ReadFailsExactlyWhenEmpty` | src/main/java/com/google/testing/compile/InMemoryJavaFileManager.java:157-164 | reading fails exactly when data is absent, and the failure is not-found; otherwise it yields exactly the stored bytes |
| `InMemoryFileObject.TextViewAgreesWithBytes` | src/main/java/com/google/testing/compile/InMemoryJavaFileManager.java:178-195 | the text views fail exactly when the byte view fails; otherwise they yield the stored bytes decoded with the one charset |
| `InMemoryFileObject.ApplyPreservesValid` | src/main/java/com/google/testing/compile/InMemoryJavaFileManager.java:166-220 | close, delete and an unclosed stream all keep the invariant "no data implies stamp 0" |
| `InMemoryFileObject.CommitThenRead` | src/main/java/com/google/testing/compile/InMemoryJavaFileManager.java:166-176 | round trip: from any prior state, closing a stream that holds C at time t makes reads yield exactly C and the stamp t |
| `InMemoryFileObject.WriterThenReader` | src/main/java/com/google/testing/compile/InMemoryJavaFileManager.java:197-208 | text committed through the writer reads back unchanged through the text views when the charset decodes its own encoding |
| `InMemoryFileObject.DeleteResets` | src/main/java/com/google/testing/compile/InMemoryJavaFileManager.java:215-220 | delete yields the empty state from any state, reads then fail with not-found, and a second delete changes nothing |
| `InMemoryFileObject.RewriteAfterDelete` | src/main/java/com/google/testing/compile/InMemoryJavaFileManager.java:166-220 | after delete, a write-and-close makes the file readable again with the new content and the new stamp |
| `InMemoryFileObject.RunIsLastMutation` | src/main/java/com/google/testing/compile/InMemoryJavaFileManager.java:166-220 | after any history, the state is the result of the last close or delete alone; a history made only of unclosed streams changes nothing |
| `InMemoryFileObject.RunPreservesValid` | src/main/java/com/google/testing/compile/InMemoryJavaFileManager.java:150-220 | every history of closes, deletes and unclosed streams keeps the invariant |
| `InMemoryFileObject.InMemoryJavaFileObject.constructor` | src/main/java/com/google/testing/compile/InMemoryJavaFileManager.java:150-155 | a new object keeps its URI, takes the kind deduced from the URI and the given default charset, has no data and has stamp 0 |
| `InMemoryFileObject.InMemoryJavaFileObject.OpenInputStream` | src/main/java/com/google/testing/compile/InMemoryJavaFileManager.java:157-164 | yields the stored bytes, or not-found while data is absent |
| `InMemoryFileObject.InMemoryJavaFileObject.OpenOutputStream` | src/main/java/com/google/testing/compile/InMemoryJavaFileManager.java:166-176 | returns a fresh, empty stream bound to this file; the file itself does not change |
| `InMemoryFileObject.InMemoryJavaFileObject.OpenReader` | src/main/java/com/google/testing/compile/InMemoryJavaFileManager.java:178-185 | yields the stored bytes decoded with the object's default charset, or not-found while data is absent |
| `InMemoryFileObject.InMemoryJavaFileObject.GetCharContent` | src/main/java/com/google/testing/compile/InMemoryJavaFileManager.java:187-195 | yields the same text as `OpenReader`, or not-found while data is absent |
| `InMemoryFileObject.InMemoryJavaFileObject.OpenWriter` | src/main/java/com/google/testing/compile/InMemoryJavaFileManager.java:197-208 | returns a fresh, empty writer bound to this file; the file itself does not change |
| `InMemoryFileObject.InMemoryJavaFileObject.GetLastModified` | src/main/java/com/google/testing/compile/InMemoryJavaFileManager.java:210-213 | returns the stamp of the last committed write, which is 0 while data is absent |
| `InMemoryFileObject.InMemoryJavaFileObject.Delete` | src/main/java/com/google/testing/compile/InMemoryJavaFileManager.java:215-220 | returns true and leaves the object empty with stamp 0 |
| `InMemoryFileObject.ByteArrayOutputStream.constructor` | src/main/java/com/google/testing/compile/InMemoryJavaFileManager.java:168 | a new stream is bound to its owning file and has an empty buffer |
| `InMemoryFileObject.ByteArrayOutputStream.Write` | src/main/java/com/google/testing/compile/InMemoryJavaFileManager.java:166-176 | writing appends to the stream's buffer and does not touch the owning file |
| `InMemoryFileObject.ByteArrayOutputStream.Close` | src/main/java/com/google/testing/compile/InMemoryJavaFileManager.java:169-174 | close replaces the owner's data wholesale with the buffered bytes and stamps it with the clock value; nothing else changes |
| `InMemoryFileObject.StringWriter.constructor` | src/main/java/com/google/testing/compile/InMemoryJavaFileManager.java:199 | a new writer is bound to its owning file and has an empty buffer |
| `InMemoryFileObject.StringWriter.Write` | src/main/java/com/google/testing/compile/InMemoryJavaFileManager.java:197-208 | writing appends to the writer's text and does not touch the owning file |
| `InMemoryFileObject.StringWriter.Close` | src/main/java/com/google/testing/compile/InMemoryJavaFileManager.java:200-206 | close replaces the owner's data with the text encoded by the owner's default charset and stamps it with the clock value; nothing else changes |
| `InMemoryFileManager.InMemoryJavaFileManager.constructor` | src/main/java/com/google/testing/compile/InMemoryJavaFileManager.java:53-62 | a new manager starts with an empty cache and keeps the given URI and kind functions and the default charset |
| `InMemoryFileManager.InMemoryJavaFileManager.IsSameFile` | src/main/java/com/google/testing/compile/InMemoryJavaFileManager.java:71-78 | holds exactly when the two URIs are equal, so it holds for an object and itself; it reads no field, so content and stamps play no part |
| `InMemoryFileManager.CachedSameFileIsIdentity` | src/main/java/com/google/testing/compile/InMemoryJavaFileManager.java:71-78 | for two cached objects, `isSameFile` holds exactly when they are the same object |
| `InMemoryFileManager.InMemoryJavaFileManager.IfPresent` | src/main/java/com/google/testing/compile/InMemoryJavaFileManager.java:84-85 | the cache lookup finds an object exactly when the URI is cached; the object found is the cached one, carries that URI and keeps its invariant |
| `InMemoryFileManager.InMemoryJavaFileManager.FileForInput` | src/main/java/com/google/testing/compile/InMemoryJavaFileManager.java:80-89 | a non-output location is forwarded with its arguments unchanged; an output location gives the cached object for the derived URI, or null exactly when that URI is not cached; it adds no entry |
| `InMemoryFileManager.InMemoryJavaFileManager.JavaFileForInput` | src/main/java/com/google/testing/compile/InMemoryJavaFileManager.java:91-99 | the same routing for class names and kinds: forwarded for non-output locations, otherwise the cached object or null, with no entry added |
| `InMemoryFileManager.InMemoryJavaFileManager.GetUnchecked` | src/main/java/com/google/testing/compile/InMemoryJavaFileManager.java:53-58 | fetch-or-create: returns the existing entry, or a fresh empty object for the URI that the cache loader adds; the key set grows by that URI at most; the returned object keeps its invariant |
| `InMemoryFileManager.InMemoryJavaFileManager.GetFileForOutput` | src/main/java/com/google/testing/compile/InMemoryJavaFileManager.java:101-106 | fetch-or-create for the derived URI, whatever the location; existing entries are untouched; afterwards an input request with the same arguments at an output location finds this object |
| `InMemoryFileManager.InMemoryJavaFileManager.GetJavaFileForOutput` | src/main/java/com/google/testing/compile/InMemoryJavaFileManager.java:108-113 | the same fetch-or-create for class names and kinds, with the same input/output agreement |
| `InMemoryFileManager.InMemoryJavaFileManager.OutputFiles` | src/main/java/com/google/testing/compile/InMemoryJavaFileManager.java:126-128 | contains every cached object, written or not, and nothing else; there are exactly as many objects as cached URIs |
| `InMemoryFileManager.InMemoryJavaFileManager.GetGeneratedSourcesRenamed` | src/main/java/com/google/testing/compile/InMemoryJavaFileManager.java:115-124 | lists each cached object whose URI path starts with "/SOURCE_OUTPUT" and whose kind is SOURCE exactly once, and nothing else; every listed object is an output file |
| `Scenarios.WriteClassFile` | src/main/java/com/google/testing/compile/InMemoryJavaFileManager.java:108-213 | after writing CA FE BA BE to the class file of com.foo.Bar and closing it at `now`, there is one output file, it holds exactly those bytes and its stamp is `now` |
| `Scenarios.ProbeThenCreate` | src/main/java/com/google/testing/compile/InMemoryJavaFileManager.java:91-113 | probing an output location for an unwritten file returns null and creates nothing; the output request then creates exactly one entry, which the input lookup now finds, cannot be read yet and has stamp 0 |
| `Scenarios.WriteSourceText` | src/main/java/com/google/testing/compile/InMemoryJavaFileManager.java:187-208 | text written through a writer and closed is read back unchanged by `getCharContent` when the run's charset decodes its own encoding of it |
| `Scenarios.RepeatedOutputRequest` | src/main/java/com/google/testing/compile/InMemoryJavaFileManager.java:71-106 | two output requests with the same arguments return the same object, `isSameFile` holds for the pair, and the cache has one entry |
| `Scenarios.DeleteThenRewrite` | src/main/java/com/google/testing/compile/InMemoryJavaFileManager.java:157-220 | delete returns true; after it reads fail with not-found and the stamp is 0; a rewrite makes reads yield the new bytes with the new stamp |
| `Scenarios.GeneratedSourcesFilter` | src/main/java/com/google/testing/compile/InMemoryJavaFileManager.java:108-128 | a generated source and a class file outside "/SOURCE_OUTPUT" are both outputs, but only the source is listed among the generated sources |

## Left out

- `ForwardingStandardJavaFileManager` and the non-output branches of `getFileForInput` and `getJavaFileForInput`: these only forward to the delegate file manager. The model returns `Forwarded(request)` with the unchanged arguments and does not model what the delegate answers.
- InMemoryFileManager.InMemoryJavaFileManager.IsSameFile: accepts only in-memory file objects; `isSameFile` also compares file objects returned by the delegate, which the model does not represent.
- `setLocationFromPaths` in both files: it looks up a delegate method by reflection and invokes it. This is a foreign-call compatibility shim with no state of its own.
- Thread safety of Guava's `LoadingCache`, including single creation under concurrent access: the cache is a plain map with a sequential fetch-or-create.
- The `sibling` argument of `getFileForOutput` and `getJavaFileForOutput`: the source ignores it, so the model leaves it out.
- Character encoding: the default charset is an opaque `Charset` value with caller-given `encode` and `decode` functions. `ignoreEncodingErrors` is accepted and ignored, as in the source.
- `System.currentTimeMillis()`: the clock value is a parameter. Monotonicity is not claimed, because the code does not guarantee it.
- `toString` and the bodies of `uriForFileObject`, `MoreTrees.uriForJavaFileObject` and `JavaFileObjects.deduceKind`: these are not part of this model, and the last three are function-valued parameters.
- InMemoryFileObject.InMemoryJavaFileObject.OpenInputStream: returns the whole content the stream would yield, not a stream object read piece by piece.
- InMemoryFileObject.InMemoryJavaFileObject.OpenReader: returns the whole text the reader would yield, not a reader object read piece by piece.
- InMemoryFileManager.InMemoryJavaFileManager.OutputFiles: returns the objects as a set, not an `ImmutableList`. The list order comes from the cache's map view and is unspecified. The stated cardinality shows that no entry is merged or lost.
- InMemoryFileManager.InMemoryJavaFileManager.GetGeneratedSourcesRenamed: walks the cached URIs in an arbitrary order, so the order of its result is not stated.
- The other members `InMemoryJavaFileObject` inherits from `SimpleJavaFileObject` (`getName`, `isNameCompatible` and the like) are not part of this model.
