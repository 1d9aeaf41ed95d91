/**
 * PodReconciler: deletes pods that have stayed too long in a non-running
 * phase. The decision is the pure function Decide over the pod, its age and
 * the current maxPodAge; Reconcile runs the source's chain of early returns
 * against the object store and is proved to agree with PodRun, the relation
 * that Decide induces between the store before and after one reconciliation,
 * the calls made on the store and the (Result, error) returned.
 */
module PodController {
  import opened Wrappers
  import opened Durations
  import opened Kube
  import opened Config

  /** Pods in this namespace are never reconciled. */
  const ExcludedNamespace: string := "kube-system"

  const ZeroTimestampError: Error := Failure("pod creation timestamp has unexpected zero value")
  const DeleteFailedMessage: string := "failed to delete pod"

  /** The event filter installed by SetupWithManager: drops events for the excluded namespace. */
  predicate Filter(o: NamespacedName): (b: bool)
    ensures !b <==> o.namespace == "kube-system"
  {
    o.namespace != ExcludedNamespace
  }

  /** minDuration: the smaller of two durations. */
  function MinDuration(a: Duration, b: Duration): (r: Duration)
    ensures r == a || r == b
    ensures r <= a && r <= b
  {
    if a < b then a else b
  }

  /** The phases in which a pod may be evicted. */
  const EvictablePhases: set<PodPhase> := {PodPending, PodSucceeded, PodFailed}

  /** shouldDeletePod: only Pending, Succeeded and Failed pods are eviction candidates. */
  predicate ShouldDeletePod(pod: Pod): (b: bool)
    ensures b <==> pod.phase in EvictablePhases
    ensures b ==> pod.phase != PodRunning && pod.phase != PodUnknown
  {
    pod.phase == PodPending || pod.phase == PodSucceeded || pod.phase == PodFailed
  }

  /**
   * The requeue delay for a pod that is still too young: one minute, or less
   * when maxPodAge + 1s is shorter, so that a lowered maxPodAge takes effect
   * within a minute. The one second keeps it positive whenever maxPodAge is
   * above -1s, zero included.
   */
  function RequeueDelay(maxPodAge: Duration): (d: Duration)
    ensures d <= Minute && d <= maxPodAge + Second
    ensures d == Minute || d == maxPodAge + Second
    ensures -Second < maxPodAge ==> 0 < d
  {
    MinDuration(Minute, maxPodAge + Second)
  }

  /** The outcome decided for a pod once it has been fetched. */
  datatype Decision = Skip | RequeueAfter(delay: Duration) | DeleteNow | Fail(err: Error)

  /**
   * The decision of Reconcile's steps after the fetch: skip ineligible
   * phases, fail on a zero creation timestamp, wait while the pod is younger
   * than maxPodAge and delete it once it is not.
   */
  function Decide(pod: Pod, age: Duration, maxPodAge: Duration): (d: Decision)
    ensures d == Skip <==> !ShouldDeletePod(pod)
    ensures d.Fail? <==> ShouldDeletePod(pod) && IsZeroTime(pod.creationTimestamp)
    ensures d.Fail? ==> d.err == ZeroTimestampError
    ensures d.RequeueAfter? <==> ShouldDeletePod(pod) && !IsZeroTime(pod.creationTimestamp) && age < maxPodAge
    ensures d.RequeueAfter? ==> d.delay == RequeueDelay(maxPodAge)
    ensures d == DeleteNow <==> ShouldDeletePod(pod) && !IsZeroTime(pod.creationTimestamp) && maxPodAge <= age
  {
    if !ShouldDeletePod(pod) then Skip
    else if IsZeroTime(pod.creationTimestamp) then Fail(ZeroTimestampError)
    else if age < maxPodAge then RequeueAfter(RequeueDelay(maxPodAge))
    else DeleteNow
  }

  /**
   * One reconciliation of the pod with key `req` at instant `now`, reading
   * `maxPodAge`: `before` and `after` are the store's objects, `calls` the
   * calls made on the store, and (`res`, `err`) what Reconcile returns.
   */
  ghost predicate PodRun(req: NamespacedName, now: Time, maxPodAge: Duration,
                         before: map<NamespacedName, Pod>, after: map<NamespacedName, Pod>,
                         calls: seq<Call<Pod>>, res: Result, err: Option<Error>)
  {
    if req.namespace == ExcludedNamespace then
      calls == [] && after == before && res == Empty && err == None
    else
      && 1 <= |calls|
      && calls[0].GetCall? && calls[0].key == req
      && MayAnswerGet(before, req, calls[0].answer)
      && match calls[0].answer
         case GetFailed(e) =>
           calls == calls[..1] && after == before && res == Empty && err == IgnoreNotFound(e)
         case Found(pod) =>
           match Decide(pod, now - pod.creationTimestamp, maxPodAge)
           case Skip =>
             calls == calls[..1] && after == before && res == Empty && err == None
           case Fail(e) =>
             calls == calls[..1] && after == before && res == Empty && err == Some(e)
           case RequeueAfter(delay) =>
             calls == calls[..1] && after == before && res == Result(false, delay) && err == None
           case DeleteNow =>
             && |calls| == 2
             && calls[1].DeleteCall? && calls[1].key == req
             && MayAnswerDelete(before, req, calls[1].outcome)
             && res == Empty
             && match calls[1].outcome
                case None => after == before - {req} && err == None
                case Some(e) => after == AfterDelete(before, req, Some(e)) && err == Some(Wrapped(DeleteFailedMessage, e))
  }

  /** The number of Delete calls in a call log. */
  function DeleteCount<T>(calls: seq<Call<T>>): (n: nat)
    ensures n <= |calls|
  {
    if calls == [] then 0
    else (if calls[0].DeleteCall? then 1 else 0) + DeleteCount(calls[1..])
  }

  /** True if the run fetched a pod for which Decide chooses deletion. */
  ghost predicate FetchedExpiredPod(now: Time, maxPodAge: Duration, calls: seq<Call<Pod>>) {
    && 1 <= |calls| && calls[0].GetCall? && calls[0].answer.Found?
    && var pod := calls[0].answer.obj;
       Decide(pod, now - pod.creationTimestamp, maxPodAge) == DeleteNow
  }

  class PodReconciler {
    const client: Client<Pod>
    const config: PodReconcilerConfig

    constructor (client: Client<Pod>, config: PodReconcilerConfig)
      ensures this.client == client && this.config == config
    {
      this.client := client;
      this.config := config;
    }

    /**
     * Reconcile: the early-return chain of the source. The ghost log records
     * exactly the calls made on the store during this reconciliation.
     */
    method Reconcile(req: NamespacedName, now: Time) returns (res: Result, err: Option<Error>)
      modifies client
      ensures old(client.log) <= client.log
      ensures PodRun(req, now, config.maxPodAge, old(client.objects), client.objects,
                     client.log[|old(client.log)|..], res, err)
    {
      ghost var log0 := client.log;
      if req.namespace == ExcludedNamespace {
        return Empty, None;
      }

      var fetched := client.Get(req);
      assert client.log[|log0|..] == [GetCall(req, fetched)];
      if fetched.GetFailed? {
        return Empty, IgnoreNotFound(fetched.err);
      }
      var pod := fetched.obj;

      if !ShouldDeletePod(pod) {
        return Empty, None;
      }

      if IsZeroTime(pod.creationTimestamp) {
        return Empty, Some(ZeroTimestampError);
      }

      var podAge := now - pod.creationTimestamp;
      var maxPodAge := config.MaxPodAge();
      if podAge < maxPodAge {
        var requeueAfter := RequeueDelay(maxPodAge);
        return Result(false, requeueAfter), None;
      }

      var deleteErr := client.Delete(req);
      assert client.log[|log0|..] == [GetCall(req, fetched), DeleteCall(req, deleteErr)];
      if deleteErr.Some? {
        return Empty, Some(Wrapped(DeleteFailedMessage, deleteErr.value));
      }
      return Empty, None;
    }
  }
  // Properties of the decision.

  /** The phase table of the source's unit test, plus the empty phase of a pod with no status yet. */
  lemma ShouldDeletePodPhases(key: NamespacedName, t: Time)
    ensures ShouldDeletePod(Pod(key, PodPending, t))
    ensures ShouldDeletePod(Pod(key, PodSucceeded, t))
    ensures ShouldDeletePod(Pod(key, PodFailed, t))
    ensures !ShouldDeletePod(Pod(key, PodRunning, t))
    ensures !ShouldDeletePod(Pod(key, PodUnknown, t))
    ensures !ShouldDeletePod(Pod(key, "", t))
  {
  }

  /**
   * A pod that Decide would delete stays deletable when it grows older or
   * when maxPodAge is lowered: a configuration change can only bring a
   * deletion forward.
   */
  lemma DecideMonotone(pod: Pod, age: Duration, age': Duration, maxPodAge: Duration, maxPodAge': Duration)
    requires Decide(pod, age, maxPodAge) == DeleteNow
    requires age <= age' && maxPodAge' <= maxPodAge
    ensures Decide(pod, age', maxPodAge') == DeleteNow
  {
  }

  /** Scenarios: a Failed pod aged 20 minutes waits one minute; aged 2 hours it is deleted. */
  lemma DecideScenarios(t: Time)
    requires !IsZeroTime(t)
    ensures Decide(Pod(NamespacedName("default", "job-7"), PodFailed, t), 20 * Minute, Hour) == RequeueAfter(Minute)
    ensures Decide(Pod(NamespacedName("default", "job-7"), PodFailed, t), 2 * Hour, Hour) == DeleteNow
    ensures Decide(Pod(NamespacedName("default", "job-7"), PodPending, 0), 2 * Hour, Hour) == Fail(ZeroTimestampError)
  {
  }

  // Properties of one reconciliation.

  /**
   * A request the event filter would have dropped, which is exactly one in
   * the excluded namespace, makes no call on the store and returns an empty result and no
   * error, whatever the pod's phase and age.
   */
  lemma ExcludedNamespaceUntouched(req: NamespacedName, now: Time, maxPodAge: Duration,
                                   before: map<NamespacedName, Pod>, after: map<NamespacedName, Pod>,
                                   calls: seq<Call<Pod>>, res: Result, err: Option<Error>)
    requires !Filter(req)
    requires PodRun(req, now, maxPodAge, before, after, calls, res, err)
    ensures req.namespace == ExcludedNamespace
    ensures calls == [] && DeleteCount(calls) == 0
    ensures after == before && res == Empty && err == None
  {
  }

  /**
   * A reconciliation issues at most one Delete, and it issues one exactly when
   * the request is outside the excluded namespace and the fetched pod is
   * eligible, has a creation timestamp and is at least maxPodAge old.
   */
  lemma PodRunDeletesOnlyExpired(req: NamespacedName, now: Time, maxPodAge: Duration,
                                 before: map<NamespacedName, Pod>, after: map<NamespacedName, Pod>,
                                 calls: seq<Call<Pod>>, res: Result, err: Option<Error>)
    requires PodRun(req, now, maxPodAge, before, after, calls, res, err)
    ensures DeleteCount(calls) <= 1
    ensures DeleteCount(calls) == 1 <==> req.namespace != ExcludedNamespace && FetchedExpiredPod(now, maxPodAge, calls)
  {
  }

  /**
   * The only change a reconciliation makes to the store is the removal of the
   * requested pod, by a Delete that succeeded or found the pod already gone.
   */
  lemma PodRunStoreEffect(req: NamespacedName, now: Time, maxPodAge: Duration,
                          before: map<NamespacedName, Pod>, after: map<NamespacedName, Pod>,
                          calls: seq<Call<Pod>>, res: Result, err: Option<Error>)
    requires PodRun(req, now, maxPodAge, before, after, calls, res, err)
    ensures after == before || (req in before && after == before - {req} && res == Empty)
    ensures after != before ==>
              && |calls| == 2 && calls[1] == DeleteCall(req, calls[1].outcome)
              && (calls[1].outcome == None || IsNotFound(calls[1].outcome.value))
    ensures DeleteCall(req, None) in calls ==> err == None && after == before - {req}
  {
  }

  /**
   * A Delete that answers not-found, for a pod someone else removed after it
   * was fetched, is not ignored: the wrapped error is returned, and it is
   * still a not-found error.
   */
  lemma PodRunDeleteNotFound(req: NamespacedName, now: Time, maxPodAge: Duration,
                             before: map<NamespacedName, Pod>, after: map<NamespacedName, Pod>,
                             calls: seq<Call<Pod>>, res: Result, err: Option<Error>, e: Error)
    requires PodRun(req, now, maxPodAge, before, after, calls, res, err)
    requires DeleteCall(req, Some(e)) in calls && IsNotFound(e)
    ensures err == Some(Wrapped(DeleteFailedMessage, e)) && IsNotFound(err.value)
    ensures res == Empty && after == before - {req}
  {
  }

  /**
   * The result of a reconciliation: the Requeue flag is never set; a delay is
   * asked for only for a pod that is still too young, with no error and no
   * Delete, and it is at most one minute; an error comes with an empty result.
   */
  lemma PodRunResult(req: NamespacedName, now: Time, maxPodAge: Duration,
                     before: map<NamespacedName, Pod>, after: map<NamespacedName, Pod>,
                     calls: seq<Call<Pod>>, res: Result, err: Option<Error>)
    requires PodRun(req, now, maxPodAge, before, after, calls, res, err)
    ensures !res.requeue && res.requeueAfter <= Minute
    ensures res.requeueAfter != 0 ==> err == None && |calls| == 1 && after == before
    ensures res.requeueAfter != 0 ==> res.requeueAfter == RequeueDelay(maxPodAge)
    ensures err != None ==> res == Empty
  {
  }

  /**
   * Where errors come from: a not-found pod is no error; any other fetch
   * error is returned unchanged; the only other errors are the zero-timestamp
   * error and a failed Delete, wrapped.
   */
  lemma PodRunErrors(req: NamespacedName, now: Time, maxPodAge: Duration,
                     before: map<NamespacedName, Pod>, after: map<NamespacedName, Pod>,
                     calls: seq<Call<Pod>>, res: Result, err: Option<Error>)
    requires PodRun(req, now, maxPodAge, before, after, calls, res, err)
    requires req.namespace != ExcludedNamespace
    ensures calls[0].answer.GetFailed? ==> err == IgnoreNotFound(calls[0].answer.err)
    ensures calls[0].answer.GetFailed? && IsNotFound(calls[0].answer.err) ==> err == None && res == Empty
    ensures err != None && calls[0].answer.Found? ==>
              err == Some(ZeroTimestampError)
              || (|calls| == 2 && calls[1].outcome.Some? && err == Some(Wrapped(DeleteFailedMessage, calls[1].outcome.value)))
  {
  }

  /**
   * Reconciling the same pod twice in succession, with no other change to the
   * store in between: once the first run has removed the pod, the second
   * issues no Delete and changes nothing, whatever its instant and maxPodAge.
   * When the first run issued no Delete and both fetches succeeded, a second
   * run at the same instant with the same maxPodAge makes the same calls and
   * returns the same.
   */
  lemma ReconcileTwice(req: NamespacedName, now1: Time, maxPodAge1: Duration, now2: Time, maxPodAge2: Duration,
                       s0: map<NamespacedName, Pod>, s1: map<NamespacedName, Pod>, s2: map<NamespacedName, Pod>,
                       calls1: seq<Call<Pod>>, res1: Result, err1: Option<Error>,
                       calls2: seq<Call<Pod>>, res2: Result, err2: Option<Error>)
    requires PodRun(req, now1, maxPodAge1, s0, s1, calls1, res1, err1)
    requires PodRun(req, now2, maxPodAge2, s1, s2, calls2, res2, err2)
    ensures s0 != s1 ==> DeleteCount(calls2) == 0 && s2 == s1
    ensures now1 == now2 && maxPodAge1 == maxPodAge2
            && DeleteCount(calls1) == 0 && 1 <= |calls1| && calls1[0].answer.Found?
            && 1 <= |calls2| && calls2[0].answer.Found?
            ==> calls2 == calls1 && res2 == res1 && err2 == err1 && s2 == s1
  {
    PodRunDeletesOnlyExpired(req, now1, maxPodAge1, s0, s1, calls1, res1, err1);
    PodRunDeletesOnlyExpired(req, now2, maxPodAge2, s1, s2, calls2, res2, err2);
    PodRunStoreEffect(req, now1, maxPodAge1, s0, s1, calls1, res1, err1);
    PodRunStoreEffect(req, now2, maxPodAge2, s1, s2, calls2, res2, err2);
  }

  // The int64 arithmetic of the requeue delay, as the source computes it.

  /**
   * A maxPodAge that ParseDuration accepts ("2562047h47m16s") for which
   * maxPodAge + time.Second no longer fits in an int64.
   */
  const OverflowingMaxPodAge: Duration := 2562047 * Hour + 47 * Minute + 16 * Second

  /** minDuration(time.Minute, maxPodAge+time.Second) with Go's wrapping int64 addition. */
  function RequeueDelayInt64(maxPodAge: Duration): (d: Duration)
    requires InInt64(maxPodAge)
    ensures InInt64(d) && d <= Minute
  {
    MinDuration(Minute, WrapInt64(maxPodAge + Second))
  }

  /**
   * As long as maxPodAge + 1s fits in an int64, negative maxPodAge included,
   * the two computations agree; the delay is then positive whenever
   * maxPodAge is above -1s.
   */
  lemma RequeueDelayInt64AgreesWithoutOverflow(maxPodAge: Duration)
    requires InInt64(maxPodAge) && maxPodAge + Second <= MaxInt64
    ensures RequeueDelayInt64(maxPodAge) == RequeueDelay(maxPodAge)
    ensures -Second < maxPodAge ==> 0 < RequeueDelayInt64(maxPodAge)
  {
  }

  /**
   * Above that bound the wrapped sum is negative, so the pod is asked to be
   * requeued after a negative delay, which controller-runtime treats as no
   * requeue at all; the corrected RequeueDelay gives one minute.
   */
  lemma RequeueDelayInt64Overflows()
    ensures InInt64(OverflowingMaxPodAge) && MaxInt64 < OverflowingMaxPodAge + Second
    ensures RequeueDelayInt64(OverflowingMaxPodAge) < 0
    ensures RequeueDelay(OverflowingMaxPodAge) == Minute
  {
  }
}
