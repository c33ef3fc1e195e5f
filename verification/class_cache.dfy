/** The process-wide cache of class handles: one slot per class-table entry,
    each NULL or holding a global reference. `Jcp_CacheClasses` fills the NULL
    slots; `Jcp_UnRefCacheClasses` releases the filled ones and clears them.
    Every operation returns the new state together with the JNI calls it made. */
module ClassCache {
  import opened Wrappers
  import opened Jni
  import ClassTable

  type Slot = Option<Ref>

  datatype Cache = Cache(slots: seq<Slot>, env: Env)

  /** The outcome of an operation on the whole cache: the cache afterwards and
      the calls issued. */
  datatype Step = Step(cache: Cache, calls: seq<Call>)

  /** The outcome of a macro expansion on one slot. */
  datatype SlotStep = SlotStep(slot: Slot, env: Env, calls: seq<Call>)

  /** The outcome of a macro expanded over a run of slots. */
  datatype TableStep = TableStep(slots: seq<Slot>, env: Env, calls: seq<Call>)

  /** The global references the slots hold. */
  function SlotRefs(slots: seq<Slot>): multiset<Ref>
  {
    if |slots| == 0 then multiset{} else RefOf(slots[0]) + SlotRefs(slots[1..])
  }

  /** Well-formed cache: one slot per table entry, and the live global
      references are exactly those the slots hold (no leak, nothing released
      that a slot still holds). */
  predicate Valid(c: Cache)
  {
    && |c.slots| == ClassTable.Size
    && c.env.globals == SlotRefs(c.slots)
  }

  predicate AllCached(slots: seq<Slot>)
  {
    forall i :: 0 <= i < |slots| ==> slots[i].Some?
  }

  predicate AllEmpty(slots: seq<Slot>)
  {
    forall i :: 0 <= i < |slots| ==> slots[i].None?
  }

  predicate Succeeds(o: Lookup)
  {
    o.classFound && o.globalRefCreated
  }

  /** What CACHE_CLASS does to one slot, given the JVM's answer: a filled
      slot keeps its reference, a NULL slot is filled exactly when both
      lookups succeed. */
  predicate SlotOutcome(before: Slot, after: Slot, o: Lookup)
  {
    && (before.Some? ==> after == before)
    && (before.None? ==> (after.Some? <==> Succeeds(o)))
  }

  /** SlotOutcome holds slot by slot along a run. */
  predicate Outcomes(before: seq<Slot>, after: seq<Slot>, os: seq<Lookup>)
    requires |after| == |before| && |os| == |before|
  {
    |before| == 0 || (SlotOutcome(before[0], after[0], os[0]) && Outcomes(before[1..], after[1..], os[1..]))
  }

  lemma {:induction false} OutcomeAt(before: seq<Slot>, after: seq<Slot>, os: seq<Lookup>, j: nat)
    requires |after| == |before| && |os| == |before| && j < |before|
    requires Outcomes(before, after, os)
    ensures SlotOutcome(before[j], after[j], os[j])
  {
    if j > 0 {
      OutcomeAt(before[1..], after[1..], os[1..], j - 1);
      assert before[1..][j - 1] == before[j] && after[1..][j - 1] == after[j] && os[1..][j - 1] == os[j];
    }
  }

  /** `n` NULL slots. */
  function Nulls(n: nat): seq<Slot>
  {
    if n == 0 then [] else [None] + Nulls(n - 1)
  }

  /** NULL slots are empty and hold no reference. */
  lemma {:induction false} NullsHoldNothing(n: nat)
    ensures |Nulls(n)| == n && AllEmpty(Nulls(n))
    ensures SlotRefs(Nulls(n)) == multiset{}
  {
    if n > 0 {
      NullsHoldNothing(n - 1);
      assert Nulls(n)[1..] == Nulls(n - 1);
    }
  }

  /** The state before the first call: the C globals start out NULL. */
  function Init(env: Env): (c: Cache)
    requires env.globals == multiset{}
    ensures Valid(c) && AllEmpty(c.slots)
  {
    NullsHoldNothing(ClassTable.Size);
    Cache(Nulls(ClassTable.Size), env)
  }

  // ------------------------------------------------------------------
  // Population: CACHE_CLASS for one slot, then over the table in order.
  // ------------------------------------------------------------------

  /** The three calls CACHE_CLASS makes for a NULL slot. */
  function PopulateCalls(name: string, clazz: Slot, g: Slot): seq<Call>
  {
    [FindClass(name, clazz), NewGlobalRef(clazz, g), DeleteLocalRef(clazz)]
  }

  lemma PopulateTrace(name: string, clazz: Slot, g: Slot)
    ensures Created(PopulateCalls(name, clazz, g)) == RefOf(g)
    ensures Deleted(PopulateCalls(name, clazz, g)) == multiset{}
    ensures FindClassNames(PopulateCalls(name, clazz, g)) == [name]
  {
    var cs := PopulateCalls(name, clazz, g);
    var last := cs[2..];
    assert last[1..] == [];
    assert Created(last) == multiset{} && Deleted(last) == multiset{} && FindClassNames(last) == [];
    assert cs[1..][1..] == last;
    assert Created(cs[1..]) == RefOf(g) && Deleted(cs[1..]) == multiset{} && FindClassNames(cs[1..]) == [];
  }

  /** CACHE_CLASS on one slot. A NULL slot receives
      `NewGlobalRef(FindClass(name))` and the temporary local reference is
      deleted on every path; a filled slot is left alone and no JNI call is
      made. The slot ends up holding what it held plus what was created. */
  function CacheClass(slot: Slot, name: string, o: Lookup, env: Env): (r: SlotStep)
    ensures slot.Some? ==> r == SlotStep(slot, env, [])
    ensures SlotOutcome(slot, r.slot, o)
    ensures slot.None? ==> FindClassNames(r.calls) == [name]
    ensures r.env.locals == env.locals
    ensures Deleted(r.calls) == multiset{}
    ensures r.env.globals == env.globals + Created(r.calls)
    ensures RefOf(slot) + Created(r.calls) == RefOf(r.slot)
  {
    if slot.Some? then SlotStep(slot, env, [])
    else
      var (e1, clazz) := FindClassRef(env, o.classFound);
      var (e2, g) := NewGlobal(e1, clazz, o.globalRefCreated);
      var e3 := DeleteLocal(e2, clazz);
      assert e3.locals == env.locals by {
        assert e3.locals == (env.locals + RefOf(clazz)) - RefOf(clazz);
      }
      PopulateTrace(name, clazz, g);
      SlotStep(g, e3, PopulateCalls(name, clazz, g))
  }

  /** The names of the NULL slots, in table order. */
  function EmptySlotNames(slots: seq<Slot>, names: seq<string>): seq<string>
    requires |slots| == |names|
  {
    if |slots| == 0 then []
    else (if slots[0].None? then [names[0]] else []) + EmptySlotNames(slots[1..], names[1..])
  }

  /** CACHE_CLASS expanded over a run of slots, first to last; `os[j]` is what
      the JVM answers for slot `j`. */
  function CacheTable(slots: seq<Slot>, names: seq<string>, os: seq<Lookup>, env: Env): (r: TableStep)
    requires |names| == |slots| && |os| == |slots|
    ensures |r.slots| == |slots|
    ensures r.env.locals == env.locals
    ensures Deleted(r.calls) == multiset{}
    ensures r.env.globals == env.globals + Created(r.calls)
    ensures SlotRefs(slots) + Created(r.calls) == SlotRefs(r.slots)
    ensures Outcomes(slots, r.slots, os)
  {
    if |slots| == 0 then TableStep([], env, [])
    else
      var s1 := CacheClass(slots[0], names[0], os[0], env);
      var s2 := CacheTable(slots[1..], names[1..], os[1..], s1.env);
      CreatedAppend(s1.calls, s2.calls);
      DeletedAppend(s1.calls, s2.calls);
      var r := TableStep([s1.slot] + s2.slots, s2.env, s1.calls + s2.calls);
      assert r.slots[1..] == s2.slots;
      r
  }

  /** CacheTable asks `FindClass` for exactly the names of the NULL slots, in
      order. */
  lemma {:induction false} CacheTableLookups(slots: seq<Slot>, names: seq<string>, os: seq<Lookup>, env: Env)
    requires |names| == |slots| && |os| == |slots|
    ensures FindClassNames(CacheTable(slots, names, os, env).calls) == EmptySlotNames(slots, names)
  {
    if |slots| > 0 {
      var s1 := CacheClass(slots[0], names[0], os[0], env);
      var s2 := CacheTable(slots[1..], names[1..], os[1..], s1.env);
      FindClassNamesAppend(s1.calls, s2.calls);
      CacheTableLookups(slots[1..], names[1..], os[1..], s1.env);
    }
  }

  /** `Jcp_CacheClasses`. Filled slots keep their reference; a NULL slot is
      filled exactly when both lookups succeed; `FindClass` is asked once per
      NULL slot, in table order, and for no filled one; nothing is released,
      no local reference survives, and a valid cache stays valid. */
  function CacheClasses(c: Cache, os: seq<Lookup>): (r: Step)
    requires |c.slots| == ClassTable.Size && |os| == ClassTable.Size
    ensures |r.cache.slots| == |c.slots|
    ensures forall j :: 0 <= j < |c.slots| ==> SlotOutcome(c.slots[j], r.cache.slots[j], os[j])
    ensures FindClassNames(r.calls) == EmptySlotNames(c.slots, ClassTable.Names)
    ensures r.cache.env.locals == c.env.locals
    ensures Deleted(r.calls) == multiset{}
    ensures r.cache.env.globals == c.env.globals + Created(r.calls)
    ensures Valid(c) ==> Valid(r.cache)
  {
    ClassTable.NamesFillTable();
    var t := CacheTable(c.slots, ClassTable.Names, os, c.env);
    forall j | 0 <= j < |c.slots|
      ensures SlotOutcome(c.slots[j], t.slots[j], os[j])
    {
      OutcomeAt(c.slots, t.slots, os, j);
    }
    CacheTableLookups(c.slots, ClassTable.Names, os, c.env);
    Step(Cache(t.slots, t.env), t.calls)
  }

  // ------------------------------------------------------------------
  // Teardown: UNREF_CACHE_CLASS for one slot, then over the table.
  // ------------------------------------------------------------------

  /** UNREF_CACHE_CLASS on one slot: a filled slot's global reference is
      deleted and the slot reset to NULL; a NULL slot is left alone. */
  function UnrefClass(slot: Slot, env: Env): (r: SlotStep)
    ensures r.slot.None?
    ensures slot.None? ==> r == SlotStep(slot, env, [])
    ensures Deleted(r.calls) == RefOf(slot)
    ensures Created(r.calls) == multiset{}
    ensures r.env.locals == env.locals
    ensures RefOf(slot) <= env.globals ==> r.env.globals + RefOf(slot) == env.globals
  {
    match slot
    case None => SlotStep(slot, env, [])
    case Some(g) =>
      var calls := [DeleteGlobalRef(g)];
      assert calls[1..] == [];
      SlotStep(None, DeleteGlobal(env, g), calls)
  }

  /** Releasing `a` and then `t` out of `g`, where both are live, gives back
      exactly what releasing `a + t` at once does. */
  lemma ReleaseInOrder(g: multiset<Ref>, a: multiset<Ref>, t: multiset<Ref>, g1: multiset<Ref>, g2: multiset<Ref>)
    requires a + t <= g
    requires a <= g ==> g1 + a == g
    requires t <= g1 ==> g2 + t == g1
    ensures a <= g && t <= g1 && g2 + (a + t) == g
  {
    assert g1 + a == g;
    forall x | x in t
      ensures t[x] <= g1[x]
    {
      assert (a + t)[x] <= g[x];
      assert (g1 + a)[x] == g[x];
    }
    assert g2 + (a + t) == (g2 + t) + a;
  }

  /** UNREF_CACHE_CLASS expanded over a run of slots. */
  function UnrefTable(slots: seq<Slot>, env: Env): (r: TableStep)
    ensures r.slots == Nulls(|slots|)
    ensures Deleted(r.calls) == SlotRefs(slots)
    ensures Created(r.calls) == multiset{}
    ensures r.env.locals == env.locals
    ensures SlotRefs(slots) <= env.globals ==> r.env.globals + SlotRefs(slots) == env.globals
  {
    if |slots| == 0 then TableStep([], env, [])
    else
      var s1 := UnrefClass(slots[0], env);
      var s2 := UnrefTable(slots[1..], s1.env);
      CreatedAppend(s1.calls, s2.calls);
      DeletedAppend(s1.calls, s2.calls);
      if SlotRefs(slots) <= env.globals then
        ReleaseInOrder(env.globals, RefOf(slots[0]), SlotRefs(slots[1..]), s1.env.globals, s2.env.globals);
        TableStep([s1.slot] + s2.slots, s2.env, s1.calls + s2.calls)
      else
        TableStep([s1.slot] + s2.slots, s2.env, s1.calls + s2.calls)
  }

  /** `Jcp_UnRefCacheClasses`: every slot ends NULL, and `DeleteGlobalRef` is
      issued once for each reference a slot held and never for a NULL slot.
      On a valid cache those are all the live global references, so none is
      left afterwards. */
  function UnRefCacheClasses(c: Cache): (r: Step)
    ensures |r.cache.slots| == |c.slots|
    ensures AllEmpty(r.cache.slots)
    ensures Deleted(r.calls) == SlotRefs(c.slots)
    ensures Created(r.calls) == multiset{}
    ensures r.cache.env.locals == c.env.locals
    ensures Valid(c) ==> Valid(r.cache) && r.cache.env.globals == multiset{}
  {
    var t := UnrefTable(c.slots, c.env);
    NullsHoldNothing(|c.slots|);
    Step(Cache(t.slots, t.env), t.calls)
  }

  // ------------------------------------------------------------------
  // Properties over repeated and interleaved calls.
  // ------------------------------------------------------------------

  /** On a run of filled slots CACHE_CLASS does nothing at all. */
  lemma {:induction false} CacheTableFilled(slots: seq<Slot>, names: seq<string>, os: seq<Lookup>, env: Env)
    requires |names| == |slots| && |os| == |slots|
    requires AllCached(slots)
    ensures CacheTable(slots, names, os, env) == TableStep(slots, env, [])
  {
    if |slots| > 0 {
      CacheTableFilled(slots[1..], names[1..], os[1..], env);
      assert [slots[0]] + slots[1..] == slots;
    }
  }

  /** Population is idempotent: once every slot is filled, `Jcp_CacheClasses`
      leaves the cache as it is and makes no JNI call, whatever the JVM would
      answer. */
  lemma CacheClassesIdempotent(c: Cache, os: seq<Lookup>)
    requires |c.slots| == ClassTable.Size && |os| == ClassTable.Size
    requires AllCached(c.slots)
    ensures CacheClasses(c, os) == Step(c, [])
  {
    ClassTable.NamesFillTable();
    CacheTableFilled(c.slots, ClassTable.Names, os, c.env);
  }

  /** A call in which every lookup succeeds fills every slot. */
  lemma SuccessFillsTable(c: Cache, os: seq<Lookup>)
    requires |c.slots| == ClassTable.Size && |os| == ClassTable.Size
    requires forall j :: 0 <= j < |os| ==> Succeeds(os[j])
    ensures AllCached(CacheClasses(c, os).cache.slots)
  {
    var r := CacheClasses(c, os).cache;
    forall j | 0 <= j < |r.slots|
      ensures r.slots[j].Some?
    {
      assert Succeeds(os[j]);
    }
  }

  /** After a call in which every lookup succeeds, any later call is a
      no-op: calling twice is the same as calling once. */
  lemma CacheClassesTwice(c: Cache, os1: seq<Lookup>, os2: seq<Lookup>)
    requires |c.slots| == ClassTable.Size && |os1| == ClassTable.Size && |os2| == ClassTable.Size
    requires forall j :: 0 <= j < |os1| ==> Succeeds(os1[j])
    ensures CacheClasses(CacheClasses(c, os1).cache, os2) == Step(CacheClasses(c, os1).cache, [])
  {
    SuccessFillsTable(c, os1);
    CacheClassesIdempotent(CacheClasses(c, os1).cache, os2);
  }

  /** A slot whose lookup failed stays NULL, and the next call retries it:
      `FindClass` is asked for its class again, and the slot is filled if
      that attempt succeeds. */
  lemma CacheClassesRetries(c: Cache, os1: seq<Lookup>, os2: seq<Lookup>, j: nat)
    requires |c.slots| == ClassTable.Size && |os1| == ClassTable.Size && |os2| == ClassTable.Size
    requires j < ClassTable.Size && c.slots[j].None? && !Succeeds(os1[j])
    ensures CacheClasses(c, os1).cache.slots[j].None?
    ensures CacheClasses(CacheClasses(c, os1).cache, os2).cache.slots[j].Some? <==> Succeeds(os2[j])
  {
  }

  /** On a run of NULL slots UNREF_CACHE_CLASS does nothing at all. */
  lemma {:induction false} UnrefTableEmpty(slots: seq<Slot>, env: Env)
    requires AllEmpty(slots)
    ensures UnrefTable(slots, env) == TableStep(slots, env, [])
  {
    if |slots| > 0 {
      UnrefTableEmpty(slots[1..], env);
      assert [slots[0]] + slots[1..] == slots;
      assert Nulls(|slots|) == [None] + Nulls(|slots| - 1);
    }
  }

  /** Teardown straight after another teardown releases nothing and makes
      no JNI call. */
  lemma UnRefCacheClassesTwice(c: Cache)
    ensures UnRefCacheClasses(UnRefCacheClasses(c).cache) == Step(UnRefCacheClasses(c).cache, [])
  {
    var r := UnRefCacheClasses(c).cache;
    UnrefTableEmpty(r.slots, r.env);
  }

  /** Teardown before any population, when every slot is still NULL, releases
      nothing and makes no JNI call. */
  lemma UnRefBeforeCache(c: Cache)
    requires AllEmpty(c.slots)
    ensures UnRefCacheClasses(c) == Step(c, [])
  {
    UnrefTableEmpty(c.slots, c.env);
  }

  /** A call from the bridge's entry points: populate with the JVM's answers,
      or tear down. */
  datatype Op = Populate(answers: seq<Lookup>) | Teardown

  predicate WellFormedOps(ops: seq<Op>)
  {
    forall k :: 0 <= k < |ops| ==> (ops[k].Populate? ==> |ops[k].answers| == ClassTable.Size)
  }

  /** One entry-point call. Each keeps a valid cache valid and balances its
      books: what was live plus what it created is what is live plus what it
      released. */
  function Apply(c: Cache, op: Op): (r: Step)
    requires |c.slots| == ClassTable.Size && (op.Populate? ==> |op.answers| == ClassTable.Size)
    ensures |r.cache.slots| == ClassTable.Size
    ensures r.cache.env.locals == c.env.locals
    ensures Valid(c) ==> Valid(r.cache)
    ensures Valid(c) ==> c.env.globals + Created(r.calls) == r.cache.env.globals + Deleted(r.calls)
  {
    match op
    case Populate(answers) => CacheClasses(c, answers)
    case Teardown => UnRefCacheClasses(c)
  }

  /** The cache after running `ops` in order, with every JNI call made.
      Over any interleaving of population and teardown a valid cache stays
      valid: the live global references are exactly those the slots hold, so
      nothing leaks, and no local reference survives. The books balance: what
      was live at the start plus every reference created equals what is live
      at the end plus every reference released, so no reference is released
      more often than it was created or live (no double release). */
  function Run(c: Cache, ops: seq<Op>): (r: Step)
    requires |c.slots| == ClassTable.Size && WellFormedOps(ops)
    ensures |r.cache.slots| == ClassTable.Size
    ensures r.cache.env.locals == c.env.locals
    ensures Valid(c) ==> Valid(r.cache)
    ensures Valid(c) ==> c.env.globals + Created(r.calls) == r.cache.env.globals + Deleted(r.calls)
    decreases |ops|
  {
    if |ops| == 0 then Step(c, [])
    else
      var s1 := Apply(c, ops[0]);
      var s2 := Run(s1.cache, ops[1..]);
      CreatedAppend(s1.calls, s2.calls);
      DeletedAppend(s1.calls, s2.calls);
      if Valid(c) then
        Rebalance(c.env.globals, Created(s1.calls), s1.cache.env.globals, Deleted(s1.calls),
                  Created(s2.calls), s2.cache.env.globals, Deleted(s2.calls));
        Step(s2.cache, s1.calls + s2.calls)
      else
        Step(s2.cache, s1.calls + s2.calls)
  }

  /** Two balanced stretches make a balanced whole. */
  lemma Rebalance(g0: multiset<Ref>, c1: multiset<Ref>, g1: multiset<Ref>, d1: multiset<Ref>,
                  c2: multiset<Ref>, g2: multiset<Ref>, d2: multiset<Ref>)
    requires g0 + c1 == g1 + d1 && g1 + c2 == g2 + d2
    ensures g0 + (c1 + c2) == g2 + (d1 + d2)
  {
    calc {
      g0 + (c1 + c2);
      (g0 + c1) + c2;
      (g1 + d1) + c2;
      (g1 + c2) + d1;
      (g2 + d2) + d1;
      g2 + (d1 + d2);
    }
  }
}
