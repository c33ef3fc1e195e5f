/** The part of the Java Native Interface the bridge relies on, as an abstract
    environment. References are numbered; a new reference takes the number
    `next`, so it never collides with one handed out before. Whether a lookup or
    an allocation succeeds is decided by the caller of the model (an oracle),
    because the JVM's own behaviour is not part of this model. */
module Jni {
  import opened Wrappers

  type Ref = nat

  /** A JNI method ID; 0 is the null ID. */
  type MethodId = nat

  /** The JNI calls the bridge issues, in the order it issues them; a call
      that hands back a reference records the reference it returned. */
  datatype Call =
    | FindClass(name: string, result: Option<Ref>)
    | NewGlobalRef(obj: Option<Ref>, result: Option<Ref>)
    | DeleteLocalRef(obj: Option<Ref>)
    | DeleteGlobalRef(ref: Ref)
    | GetMethodID(name: string, sig: string)
    | CallObjectMethod(receiver: Option<Ref>, id: MethodId)

  /** Live global and local references, and the next fresh reference number. */
  datatype Env = Env(globals: multiset<Ref>, locals: multiset<Ref>, next: Ref)

  /** What the JVM answers for one class-table slot: whether `FindClass` finds
      the class and whether `NewGlobalRef` manages to allocate a global ref. */
  datatype Lookup = Lookup(classFound: bool, globalRefCreated: bool)

  /** `FindClass`: a fresh local reference on success, NULL on failure. */
  function FindClassRef(env: Env, found: bool): (r: (Env, Option<Ref>))
    ensures r.1.Some? <==> found
    ensures r.0.globals == env.globals && r.0.locals == env.locals + RefOf(r.1)
  {
    if found then (env.(locals := env.locals + multiset{env.next}, next := env.next + 1), Some(env.next))
    else (env, None)
  }

  /** `NewGlobalRef`: NULL for a NULL argument or when the JVM runs out of
      memory, otherwise a fresh global reference. */
  function NewGlobal(env: Env, obj: Option<Ref>, created: bool): (r: (Env, Option<Ref>))
    ensures r.1.Some? <==> obj.Some? && created
    ensures r.0.globals == env.globals + RefOf(r.1) && r.0.locals == env.locals
  {
    if obj.Some? && created then (env.(globals := env.globals + multiset{env.next}, next := env.next + 1), Some(env.next))
    else (env, None)
  }

  /** `DeleteLocalRef`: releases one local reference; NULL is a no-op. */
  function DeleteLocal(env: Env, obj: Option<Ref>): (r: Env)
    ensures r.globals == env.globals && r.locals == env.locals - RefOf(obj)
  {
    match obj
    case None => env
    case Some(l) => env.(locals := env.locals - multiset{l})
  }

  /** `DeleteGlobalRef`: releases one global reference. */
  function DeleteGlobal(env: Env, g: Ref): (r: Env)
    ensures r.locals == env.locals && r.globals == env.globals - multiset{g}
  {
    env.(globals := env.globals - multiset{g})
  }

  /** The references a call holds or yields, as a multiset: empty for NULL. */
  function RefOf(o: Option<Ref>): multiset<Ref>
  {
    match o
    case None => multiset{}
    case Some(g) => multiset{g}
  }

  /** The global references a trace created. */
  function Created(calls: seq<Call>): multiset<Ref>
  {
    if |calls| == 0 then multiset{}
    else
      (match calls[0]
       case NewGlobalRef(_, g) => RefOf(g)
       case _ => multiset{})
      + Created(calls[1..])
  }

  /** The global references a trace released. */
  function Deleted(calls: seq<Call>): multiset<Ref>
  {
    if |calls| == 0 then multiset{}
    else
      (match calls[0]
       case DeleteGlobalRef(g) => multiset{g}
       case _ => multiset{})
      + Deleted(calls[1..])
  }

  /** The class names a trace asked `FindClass` for, in order. */
  function FindClassNames(calls: seq<Call>): seq<string>
  {
    if |calls| == 0 then []
    else
      (match calls[0]
       case FindClass(name, _) => [name]
       case _ => [])
      + FindClassNames(calls[1..])
  }

  /** Number of `GetMethodID` calls in a trace. */
  function MethodLookups(calls: seq<Call>): nat
  {
    if |calls| == 0 then 0
    else (if calls[0].GetMethodID? then 1 else 0) + MethodLookups(calls[1..])
  }

  /** The receivers and method IDs of the `CallObjectMethod` calls in a trace. */
  function Invocations(calls: seq<Call>): seq<(Option<Ref>, MethodId)>
  {
    if |calls| == 0 then []
    else
      (match calls[0]
       case CallObjectMethod(receiver, id) => [(receiver, id)]
       case _ => [])
      + Invocations(calls[1..])
  }

  /** Each trace summary above distributes over concatenation. */
  lemma {:induction false} CreatedAppend(a: seq<Call>, b: seq<Call>)
    ensures Created(a + b) == Created(a) + Created(b)
  {
    if |a| == 0 {
      assert a + b == b;
    } else {
      assert (a + b)[1..] == a[1..] + b;
      CreatedAppend(a[1..], b);
    }
  }

  lemma {:induction false} DeletedAppend(a: seq<Call>, b: seq<Call>)
    ensures Deleted(a + b) == Deleted(a) + Deleted(b)
  {
    if |a| == 0 {
      assert a + b == b;
    } else {
      assert (a + b)[1..] == a[1..] + b;
      DeletedAppend(a[1..], b);
    }
  }

  lemma {:induction false} FindClassNamesAppend(a: seq<Call>, b: seq<Call>)
    ensures FindClassNames(a + b) == FindClassNames(a) + FindClassNames(b)
  {
    if |a| == 0 {
      assert a + b == b;
    } else {
      assert (a + b)[1..] == a[1..] + b;
      FindClassNamesAppend(a[1..], b);
    }
  }

  lemma {:induction false} MethodLookupsAppend(a: seq<Call>, b: seq<Call>)
    ensures MethodLookups(a + b) == MethodLookups(a) + MethodLookups(b)
  {
    if |a| == 0 {
      assert a + b == b;
    } else {
      assert (a + b)[1..] == a[1..] + b;
      MethodLookupsAppend(a[1..], b);
    }
  }

  lemma {:induction false} InvocationsAppend(a: seq<Call>, b: seq<Call>)
    ensures Invocations(a + b) == Invocations(a) + Invocations(b)
  {
    if |a| == 0 {
      assert a + b == b;
    } else {
      assert (a + b)[1..] == a[1..] + b;
      InvocationsAppend(a[1..], b);
    }
  }
}
