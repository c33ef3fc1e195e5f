# pemja bridge core: class cache, numeric bounds, numpy copy, `getName` memo

pemja embeds CPython in a JVM and converts values between the two runtimes.
This project models, in Dafny, the parts of its native core that carry
behaviour of their own:

- **The class-handle cache** (`ClassCache`, `ClassTable`). `CLASS_TABLE` lists
  39 Java classes; `Jcp_CacheClasses` expands `CACHE_CLASS` over it and
  `Jcp_UnRefCacheClasses` expands `UNREF_CACHE_CLASS` over it. The cache is a
  sequence of slots, each NULL (`None`) or holding a global reference. The JVM
  is an abstract environment (`Jni.Env`): live global refs, live local refs,
  and a counter for fresh ref numbers. Whether `FindClass` finds a class and
  whether `NewGlobalRef` manages to allocate are oracle inputs (`Jni.Lookup`),
  one per slot per call. Every operation returns the new cache together with
  the trace of JNI calls it made (`Jni.Call`).
- **The numeric bounds** (`Bounds`): `JBYTE_*`, `JSHORT_*`, `JINT_*`,
  `JLONG_*` and `JCHAR_MAX`. Also a small evaluator for constant expressions
  in a fixed signed width. It shows why `JINT_MIN` and `JLONG_MIN` are written
  `-1 * MAX - 1`: that form never overflows, whereas negating the literal
  magnitude of the minimum does.
- **The numpy conversion body** (`NumpyConvert`), `Jcp_NUMPY_ARRAY_CONVERT`.
  It has three outcomes: None for a NULL array, NULL when numpy cannot be
  initialised, and otherwise a fresh 1-D array. That array has the Java
  array's length and elements. The region copy (`Get<Type>ArrayRegion`) is a
  loop over a sequence.
- **The lazily resolved `getName` method ID** (`Member`). It is a static slot
  that is 0 until `GetMethodID` returns a non-zero ID, and it is reused after
  that. It is not part of the class table, so tearing the table down leaves it
  alone.

A failed `FindClass` is not fatal: the slot stays NULL and the next
`Jcp_CacheClasses` retries it (`CacheClassesRetries`).

## Model

| member | source | states |
|---|---|---|
| ClassTable.Names | src/main/c/pemja/core/include/pyutils.h:26-65 | The 39 JVM class names of `CLASS_TABLE`, in table order; each entry carries the name of its C global in a comment. |
| ClassCache.Init | src/main/c/pemja/core/include/pyutils.h:67-69 | Before the first call, every table global is NULL and no global ref is live, so the cache is valid. |
| ClassCache.CacheClass | src/main/c/pemja/core/include/pyutils.h:71-76 | A filled slot is left alone and no JNI call is made. A NULL slot ends non-NULL exactly when `FindClass` and `NewGlobalRef` both succeed, after one `FindClass` for its class name. The temporary local ref is deleted on every path, so the live local refs are unchanged. Nothing is released, and the slot gains exactly the global ref that was created. |
| ClassCache.CacheTable | src/main/c/pemja/core/include/pyutils.h:71-76 | CACHE_CLASS applied over a run of slots. Slot by slot, a filled slot keeps its ref and a NULL slot is filled exactly when its own lookup succeeds. Local refs are unchanged and nothing is released. The live global refs, and the refs the slots hold, both grow by exactly the refs created. |
| ClassCache.CacheTableLookups | src/main/c/pemja/core/include/pyutils.h:72-73 | `FindClass` is asked exactly for the names of the NULL slots, in table order, and never for a filled slot. |
| ClassCache.CacheClasses | src/main/c/pemja/core/include/pyutils.h:26-76 | `Jcp_CacheClasses` over all 39 entries. Filled slots are kept, and NULL slots are filled exactly when their lookups succeed. `FindClass` is asked once per NULL slot, in table order. No local ref leaks, nothing is released, and a valid cache stays valid. |
| ClassCache.CacheTableFilled | src/main/c/pemja/core/include/pyutils.h:72 | On filled slots, CACHE_CLASS changes nothing and makes no JNI call. |
| ClassCache.CacheClassesIdempotent | src/main/c/pemja/core/include/pyutils.h:71-76 | Once every slot is filled, `Jcp_CacheClasses` is the identity and makes no JNI call, whatever the JVM would answer. |
| ClassCache.SuccessFillsTable | src/main/c/pemja/core/include/pyutils.h:71-76 | A `Jcp_CacheClasses` call in which every lookup succeeds leaves every slot filled. |
| ClassCache.CacheClassesTwice | src/main/c/pemja/core/include/pyutils.h:71-76 | After a call in which every lookup succeeds, a second call changes nothing and makes no JNI call, so calling twice is the same as calling once. |
| ClassCache.CacheClassesRetries | src/main/c/pemja/core/include/pyutils.h:72-74 | A slot whose lookup failed stays NULL, and the next call fills it exactly when that retry succeeds. |
| ClassCache.UnrefClass | src/main/c/pemja/core/include/pyutils.h:78-82 | The slot ends NULL. `DeleteGlobalRef` is issued for the ref the slot held and for nothing when the slot was NULL. A live ref is removed from the live set. Nothing is created and local refs are unchanged. |
| ClassCache.UnrefTable | src/main/c/pemja/core/include/pyutils.h:78-82 | Over a run, every slot ends NULL. The refs released are exactly the refs the slots held, each once. When those refs were live, the live set loses exactly them. |
| ClassCache.UnRefCacheClasses | src/main/c/pemja/core/include/pyutils.h:78-82 | `Jcp_UnRefCacheClasses`: every slot ends NULL. `DeleteGlobalRef` is issued exactly once per non-NULL slot. On a valid cache no global ref is left live. |
| ClassCache.UnrefTableEmpty | src/main/c/pemja/core/include/pyutils.h:79 | On NULL slots, UNREF_CACHE_CLASS changes nothing and makes no JNI call. |
| ClassCache.UnRefCacheClassesTwice | src/main/c/pemja/core/include/pyutils.h:78-82 | Teardown right after another teardown releases nothing and makes no JNI call. |
| ClassCache.UnRefBeforeCache | src/main/c/pemja/core/include/pyutils.h:78-82 | Teardown of a cache that was never populated, with every slot NULL, releases nothing and makes no JNI call. |
| ClassCache.Apply | src/main/c/pemja/core/include/pyutils.h:103-107 | Either entry point keeps a valid cache valid and leaves local refs alone. The refs live before plus the refs created equal the refs live after plus the refs released. |
| ClassCache.Run | src/main/c/pemja/core/include/pyutils.h:71-82 | Over any interleaving of populate and teardown calls, a valid cache stays valid: the live global refs are exactly the refs held by non-NULL slots, so none leaks. Local refs are unchanged. The refs live at the start plus every ref created equal the refs live at the end plus every ref released, so no ref is released that was not live or created. |
| Member.GetName | src/main/c/pemja/core/java_class/Member.c:24-32 | `GetMethodID` is asked only when the slot is 0, and then the slot takes its answer. A non-zero slot is kept. Exactly one `CallObjectMethod` is made, on the given receiver with the slot's ID, and its result is returned unchanged. |
| Member.ResolvedIsStable | src/main/c/pemja/core/java_class/Member.c:22-31 | Once the slot is non-zero, later calls never change it and never call `GetMethodID` again. Each call invokes the method on its own receiver with that ID. |
| Member.LookupsRetryUntilResolved | src/main/c/pemja/core/java_class/Member.c:27-30 | Starting from 0, `GetMethodID` is asked by every call up to and including the first that gets a non-zero answer, and by no later call. The slot ends holding that first non-zero answer; it stays 0 exactly when every answer was 0. |
| Member.Teardown | src/main/c/pemja/core/java_class/Member.c:22 | Tearing down the class table clears every table slot, but the `getName` slot keeps its value. |
| Member.TeardownKeepsMethodId | src/main/c/pemja/core/java_class/Member.c:22-31 | After a class-table teardown, a resolved `getName` ID is reused without another `GetMethodID`. |
| Bounds.Eval | src/main/c/pemja/core/include/pyutils.h:91-97 | Fixed-width evaluation of a constant expression: any value it produces is the expression's true integer value (`Value`) and lies in the signed range of that width. |
| Bounds.EvalOverflowsExactly | src/main/c/pemja/core/include/pyutils.h:91-97 | Evaluation overflows exactly when the true value of some subexpression, the literals included, leaves the signed range; otherwise it yields the true value. |
| Bounds.DerivedMinIsSafe | src/main/c/pemja/core/include/pyutils.h:91-97 | For every width of at least 2 bits, `-1 * MAX - 1` evaluates without overflow to the two's-complement minimum. Negating the literal magnitude of that minimum overflows. |
| Bounds.IntAndLongBounds | src/main/c/pemja/core/include/pyutils.h:91-97 | `JINT_MIN = -2^31` and `JLONG_MIN = -2^63`. The int and long maximums are `2^31 - 1` and `2^63 - 1`. Both derived minimums evaluate without overflow in their own width. |
| Bounds.ByteShortCharBounds | src/main/c/pemja/core/include/pyutils.h:85-99 | The byte and short bounds are the 8- and 16-bit two's-complement ranges, with MIN = -(MAX + 1). `JCHAR_MAX` is `2^16 - 1`. |
| NumpyConvert.GetArrayRegion | src/main/c/pemja/core/include/pyutils.h:177 | The region copy succeeds exactly when `[start, start + len)` lies inside the array. It then copies those elements, in order, to the front of the buffer and leaves the rest of the buffer untouched. |
| NumpyConvert.NumpyArrayConvert | src/main/c/pemja/core/include/pyutils.h:163-180 | A NULL array gives None, with no numpy initialisation and no allocation. An init failure gives NULL with no allocation. Success gives a 1-D array of the requested dtype whose shape is `[length]` and whose elements are the Java array's, in order. `dims` is freed on every path that allocates it, as the last step. |

## Left out

- The conversion functions that `pyutils.h` only declares (lines 109-161 and 182-264) are not modelled, because their bodies are not part of this model. These cover scalars, strings, bytes, lists, collections, maps, dates and times, decimals, and the object dispatch in both directions. The six numpy converters at lines 182-198 are covered only through the macro they share, with the element type as a parameter.
- `java_class/LocalDateTime.h` declares prototypes only, so there is nothing to model.
- Float and double values: floating point is out of scope. Array elements are a type parameter.
- JNI and CPython semantics are abstract. These are `FindClass`, `NewGlobalRef`, `DeleteLocalRef`, `DeleteGlobalRef`, `GetMethodID`, `CallObjectMethod`, `init_numpy`, `PyArray_SimpleNew` and reference counting. Success and failure are inputs, and `CallObjectMethod` is a function parameter.
- Pending Java exceptions are not modelled. A failed `FindClass` leaves one pending while CACHE_CLASS goes on to call `NewGlobalRef(NULL)` and `DeleteLocalRef(NULL)`. The model treats those two calls as no-ops.
- Member.GetName: when `GetMethodID` returns 0, the code still calls `CallObjectMethod` with the null ID. The model reproduces that call as written and says nothing about what the JVM does with it.
- The class `GetMethodID` is asked about (`JMEMBER_TYPE`) is declared in `Member.h`, which is not part of this model. The recorded call carries only the method name and signature.
- `Jni.Env` tracks only the references the cache creates and releases, not the other global refs in the process.
- Thread safety of first-use population is not modelled. The code has no guard, and the model claims no atomicity.
- Failure of `malloc` or `PyArray_SimpleNew` inside the numpy macro is not modelled, because the code checks neither. A Java array length always fits `int`, so the `int length` variable is not bounded separately.
- Bounds.Eval models evaluation in one fixed signed width. It does not model any particular compiler's rules for typing integer literals.
- The uniqueness of the 39 class names is not stated; proving it pair by pair over the literal table is too expensive.
