/** `JavaMember_getName`: calls `getName()` on a `java.lang.reflect.Member`
    through a method ID that is looked up on first use and kept in a static
    slot. The slot starts at 0 (unresolved); `GetMethodID` is asked only while
    it is 0, so a failed lookup is retried on the next call and a successful
    one is reused for the life of the process. */
module Member {
  import opened Wrappers
  import opened Jni
  import ClassCache

  const MethodName: string := "getName"
  const MethodSig: string := "()Ljava/lang/String;"

  /** The static slot after a call, the JNI calls made, and the call's result. */
  datatype GetNameStep = GetNameStep(getName: MethodId, calls: seq<Call>, result: Option<Ref>)

  /** One call of `JavaMember_getName`. `answer` is what `GetMethodID` returns
      if it is asked (0 on failure); `invoke` is the JVM's `CallObjectMethod`.
      Exactly one `CallObjectMethod` is made, on the given receiver with the
      slot's method ID, and its result is returned unchanged. */
  function GetName(getName: MethodId, answer: MethodId, receiver: Option<Ref>,
                   invoke: (Option<Ref>, MethodId) -> Option<Ref>): (r: GetNameStep)
    ensures getName != 0 ==> r.getName == getName && MethodLookups(r.calls) == 0
    ensures getName == 0 ==> r.getName == answer && MethodLookups(r.calls) == 1
    ensures Invocations(r.calls) == [(receiver, r.getName)]
    ensures r.result == invoke(receiver, r.getName)
  {
    var lookup := if getName == 0 then [GetMethodID(MethodName, MethodSig)] else [];
    var id := if getName == 0 then answer else getName;
    var calls := lookup + [CallObjectMethod(receiver, id)];
    MethodLookupsAppend(lookup, [CallObjectMethod(receiver, id)]);
    InvocationsAppend(lookup, [CallObjectMethod(receiver, id)]);
    assert calls[|lookup|..] == [CallObjectMethod(receiver, id)];
    assert [CallObjectMethod(receiver, id)][1..] == [];
    GetNameStep(id, calls, invoke(receiver, id))
  }

  /** Calls in sequence: call `k` is made on `receivers[k]`, and `answers[k]`
      is what `GetMethodID` would return if call `k` asked it. */
  datatype GetNameRun = GetNameRun(getName: MethodId, calls: seq<Call>, results: seq<Option<Ref>>)

  function RunGetName(getName: MethodId, answers: seq<MethodId>, receivers: seq<Option<Ref>>,
                      invoke: (Option<Ref>, MethodId) -> Option<Ref>): (r: GetNameRun)
    requires |answers| == |receivers|
    ensures |r.results| == |receivers|
    decreases |receivers|
  {
    if |receivers| == 0 then GetNameRun(getName, [], [])
    else
      var s1 := GetName(getName, answers[0], receivers[0], invoke);
      var s2 := RunGetName(s1.getName, answers[1..], receivers[1..], invoke);
      GetNameRun(s2.getName, s1.calls + s2.calls, [s1.result] + s2.results)
  }

  /** How many calls ask `GetMethodID` when the slot starts at 0: each call
      until the first non-zero answer, that one included. */
  function LookupsUntilResolved(answers: seq<MethodId>): nat
  {
    if |answers| == 0 then 0
    else if answers[0] != 0 then 1
    else 1 + LookupsUntilResolved(answers[1..])
  }

  /** The first non-zero answer, or 0 when every answer is 0. */
  function FirstNonZero(answers: seq<MethodId>): MethodId
  {
    if |answers| == 0 then 0
    else if answers[0] != 0 then answers[0]
    else FirstNonZero(answers[1..])
  }

  /** Once the slot is non-zero it is never changed or looked up again, and
      every call invokes `getName` on its own receiver with that ID. */
  lemma {:induction false} ResolvedIsStable(getName: MethodId, answers: seq<MethodId>, receivers: seq<Option<Ref>>,
                                            invoke: (Option<Ref>, MethodId) -> Option<Ref>)
    requires |answers| == |receivers| && getName != 0
    ensures RunGetName(getName, answers, receivers, invoke).getName == getName
    ensures MethodLookups(RunGetName(getName, answers, receivers, invoke).calls) == 0
    ensures Invocations(RunGetName(getName, answers, receivers, invoke).calls) == seq(|receivers|, k requires 0 <= k < |receivers| => (receivers[k], getName))
    decreases |receivers|
  {
    if |receivers| > 0 {
      var s1 := GetName(getName, answers[0], receivers[0], invoke);
      var s2 := RunGetName(s1.getName, answers[1..], receivers[1..], invoke);
      ResolvedIsStable(getName, answers[1..], receivers[1..], invoke);
      MethodLookupsAppend(s1.calls, s2.calls);
      InvocationsAppend(s1.calls, s2.calls);
    }
  }

  /** From the unresolved state, `GetMethodID` is asked by every call up to and
      including the first that gets a non-zero answer, and by no later call;
      the slot ends holding that first non-zero answer, or 0 if there was none. */
  lemma {:induction false} LookupsRetryUntilResolved(answers: seq<MethodId>, receivers: seq<Option<Ref>>,
                                                     invoke: (Option<Ref>, MethodId) -> Option<Ref>)
    requires |answers| == |receivers|
    ensures MethodLookups(RunGetName(0, answers, receivers, invoke).calls) == LookupsUntilResolved(answers)
    ensures RunGetName(0, answers, receivers, invoke).getName == 0 <==> forall k :: 0 <= k < |answers| ==> answers[k] == 0
    ensures RunGetName(0, answers, receivers, invoke).getName == FirstNonZero(answers)
    decreases |receivers|
  {
    if |receivers| > 0 {
      var s1 := GetName(0, answers[0], receivers[0], invoke);
      var s2 := RunGetName(s1.getName, answers[1..], receivers[1..], invoke);
      MethodLookupsAppend(s1.calls, s2.calls);
      if answers[0] != 0 {
        ResolvedIsStable(answers[0], answers[1..], receivers[1..], invoke);
      } else {
        LookupsRetryUntilResolved(answers[1..], receivers[1..], invoke);
        assert forall k :: 1 <= k < |answers| ==> answers[k] == answers[1..][k - 1];
      }
    }
  }

  /** The bridge's process-wide state: the class cache and the `getName` slot. */
  datatype Bridge = Bridge(cache: ClassCache.Cache, getName: MethodId)

  /** `Jcp_UnRefCacheClasses` on the bridge: the class table is torn down,
      but the `getName` slot is not part of it and keeps its method ID. */
  function Teardown(b: Bridge): (r: Bridge)
    ensures ClassCache.AllEmpty(r.cache.slots)
    ensures r.getName == b.getName
  {
    Bridge(ClassCache.UnRefCacheClasses(b.cache).cache, b.getName)
  }

  /** After a class-table teardown, a resolved `getName` ID is still reused:
      the next call does not look it up again. */
  lemma TeardownKeepsMethodId(b: Bridge, answer: MethodId, receiver: Option<Ref>,
                              invoke: (Option<Ref>, MethodId) -> Option<Ref>)
    requires b.getName != 0
    ensures GetName(Teardown(b).getName, answer, receiver, invoke).getName == b.getName
    ensures MethodLookups(GetName(Teardown(b).getName, answer, receiver, invoke).calls) == 0
  {
  }
}
