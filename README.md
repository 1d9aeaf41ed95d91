# podbouncer eviction controller — Dafny model

podbouncer is a Kubernetes controller that deletes pods which have stayed too
long in a non-running phase (Pending, Succeeded or Failed). The age threshold,
`maxPodAge`, lives in a shared configuration object. A second controller keeps
it in step with one designated ConfigMap. This project models the decision
layer of both reconcilers and the configuration holder, and proves what they
promise.

Layout, one module per file:

- `wrappers.dfy` — `Option`, for Go's nil errors and "value, ok" lookups.
- `durations.dfy` — `time.Duration` as an integer count of nanoseconds, the unit constants, `IsZeroTime`, and Go's int64 wrap-around (`WrapInt64`).
- `kube.dfy` — the API types the reconcilers read: `NamespacedName`, `Pod`, `ConfigMap`, `Result` (ctrl.Result), `Error`, and apierrors' `IsNotFound` / client's `IgnoreNotFound`. It also holds `Client<T>`, an object store standing for the API server. Its `Get` and `Delete` may fail nondeterministically. Every call is recorded, with its answer, in a ghost log.
- `config.dfy` — `PodReconcilerConfig`, a class with one field `maxPodAge`.
- `pod_controller.dfy` — the pod reconciler. `Decide` is the pure decision over the pod, its age and `maxPodAge`. `PodRun` is the relation one reconciliation establishes between the store before and after, the calls made and the (Result, error) returned. `PodReconciler.Reconcile` follows the source's chain of early returns and is proved to satisfy `PodRun`. Lemmas state the properties of a run.
- `configmap_controller.dfy` — the ConfigMap reconciler. `UpdatedMaxPodAge` is the pure update, `ConfigMapRun` the relation for one run, and `ConfigMapReconciler.Reconcile` the method proved against it. `Replay` covers successive ConfigMap versions.
- `wiring.dfy` — a client method that gives both reconcilers one configuration object. It shows that a value stored by the ConfigMap reconciler decides the next pod reconciliation.

Environment choices:

- The clock is a parameter: `Reconcile` takes the instant `now`, and the age is `now - creationTimestamp`.
- An instant counts nanoseconds from Go's zero `time.Time`, so a zero creation timestamp is the value 0.
- `time.ParseDuration` is the reconciler's `parseDuration` field, of type `string -> Option<Duration>`. Every property holds for every such function.
- A pod's phase is a string, as Go's `v1.PodPhase` is. An empty or unknown phase is handled like Running.

## Model

| member | source | states |
|---|---|---|
| `Config.PodReconcilerConfig.constructor` | internal/controller/config.go:19-23 | A new configuration holds `maxPodAge` = one hour. |
| `Config.PodReconcilerConfig.SetMaxPodAge` | internal/controller/config.go:25-29 | Changes only the `maxPodAge` field, and sets it to the argument with no check. |
| `Config.PodReconcilerConfig.MaxPodAge` | internal/controller/config.go:31-36 | Returns the stored value and modifies nothing. |
| `Config.SetThenGet` | internal/controller/config.go:25-36 | A read right after `SetMaxPodAge(d)` returns exactly `d`. |
| `Config.DefaultThenGet` | internal/controller/config.go:19-36 | A fresh configuration reads one hour. |
| `Kube.NamespacedName.String` | internal/controller/configmap_controller.go:59 | The key's text is the namespace, one '/', then the name, in that order. |
| `Kube.IsNotFound` | internal/controller/pod_controller.go:60 | An error is not-found exactly when its innermost cause, after every wrapping, is the not-found status. |
| `Durations.WrapInt64` | internal/controller/pod_controller.go:84 | Go's int64 result of an operation: in the int64 range, congruent to the exact result modulo 2^64, and equal to it when it fits. |
| `Kube.IgnoreNotFound` | internal/controller/pod_controller.go:59-61 | A not-found error (wrapped or not) becomes nil; any other error is returned unchanged. |
| `Kube.Client.Get` | internal/controller/pod_controller.go:58-61 | A fetch returns the stored object, or not-found for a missing key, or another failure; it never changes the store and is logged. |
| `Kube.Client.Delete` | internal/controller/pod_controller.go:90-92 | A delete succeeds only on a stored object. It may fail with any error, not-found included, even for an object just fetched. After success or not-found that key alone is gone; after any other failure the store is unchanged. Every call is logged. |
| `PodController.Filter` | internal/controller/pod_controller.go:113-115 | The pod event filter drops exactly the events of objects in `kube-system`. |
| `PodController.ShouldDeletePod` | internal/controller/pod_controller.go:106-109 | A pod is eligible exactly when its phase is Pending, Succeeded or Failed; Running and Unknown pods never are. |
| `PodController.MinDuration` | internal/controller/pod_controller.go:99-104 | Returns one of its arguments, and that value is at most both. |
| `PodController.RequeueDelay` | internal/controller/pod_controller.go:77-86 | The delay is at most one minute and at most `maxPodAge + 1s`, equals one of the two, and is positive whenever `maxPodAge` is above -1s. |
| `PodController.Decide` | internal/controller/pod_controller.go:63-96 | Skip exactly for ineligible phases. Error exactly for an eligible pod with a zero timestamp. Requeue with `RequeueDelay(maxPodAge)` exactly when the pod is younger than `maxPodAge`. Delete exactly when it is not. |
| `PodController.ShouldDeletePodPhases` | internal/controller/pod_controller_test.go:44-65 | Pending, Succeeded and Failed are eligible; Running, Unknown and the empty phase are not. |
| `PodController.DecideMonotone` | internal/controller/pod_controller.go:77-88 | A pod chosen for deletion stays chosen when it is older or `maxPodAge` is lower. |
| `PodController.DecideScenarios` | internal/controller/pod_controller.go:63-88 | A Failed pod aged 20m waits one minute; aged 2h it is deleted; a Pending pod with a zero timestamp gives the timestamp error. |
| `PodController.PodReconciler.Reconcile` | internal/controller/pod_controller.go:49-97 | One reconciliation satisfies `PodRun`: its calls, returned values and store change are those `Decide` dictates. The log only grows. |
| `PodController.ExcludedNamespaceUntouched` | internal/controller/pod_controller.go:52-55 | A `kube-system` request, or any request the event filter drops, makes no fetch or delete and returns an empty result and no error, whatever the phase or age. |
| `PodController.PodRunDeletesOnlyExpired` | internal/controller/pod_controller.go:63-92 | At most one delete per run. A delete is issued exactly when the request is outside `kube-system` and the fetched pod is eligible, has a timestamp and is at least `maxPodAge` old. |
| `PodController.PodRunStoreEffect` | internal/controller/pod_controller.go:88-96 | The store changes only by removal of the requested pod, through a delete that succeeded or answered not-found, with an empty result. A successful delete returns no error. |
| `PodController.PodRunDeleteNotFound` | internal/controller/pod_controller.go:90-92 | A delete that answers not-found for a pod fetched in the same run is not ignored: the run returns the wrapped error, which is still not-found. |
| `PodController.PodRunResult` | internal/controller/pod_controller.go:77-96 | The Requeue flag is never set. A non-zero delay is at most one minute and equals `RequeueDelay(maxPodAge)`; it comes with no error, no delete and an unchanged store. An error always comes with an empty result. |
| `PodController.PodRunErrors` | internal/controller/pod_controller.go:57-92 | Not-found on fetch is no error; other fetch errors are returned unchanged. Once a pod is fetched, the only errors are the zero-timestamp error and a failed delete, wrapped. |
| `PodController.ReconcileTwice` | internal/controller/pod_controller.go:49-97 | Two runs in a row on an otherwise unchanged store. Once the first run has removed the pod, the second issues no delete and changes nothing, at any instant and any `maxPodAge`; this relies on a successful delete removing the pod at once. If the first run did not delete, both fetches succeed, and the second run has the same instant and `maxPodAge`, it makes the same calls and returns the same. |
| `PodController.RequeueDelayInt64` | internal/controller/pod_controller.go:84 | The delay as the source computes it, with int64 addition: an int64 that is at most one minute. |
| `PodController.RequeueDelayInt64AgreesWithoutOverflow` | internal/controller/pod_controller.go:84 | For every int64 `maxPodAge`, negative ones included, with `maxPodAge + 1s` still in int64, the int64 and the exact computations agree. The delay is then positive whenever `maxPodAge` is above -1s. |
| `PodController.RequeueDelayInt64Overflows` | internal/controller/pod_controller.go:84 | For `maxPodAge` = 2562047h47m16s the int64 delay is negative, where the exact delay is one minute. |
| `ConfigMapController.ParsedMaxPodAge` | internal/controller/configmap_controller.go:69-85 | A value exists exactly when the `maxPodAge` entry is present and parses, and then it is the parsed value. |
| `ConfigMapController.UpdatedMaxPodAge` | internal/controller/configmap_controller.go:69-93 | The new value is the old one or the parsed one. It is the parsed one whenever the entry parses, with no range check. It is the old one when the entry is missing or invalid. |
| `ConfigMapController.ConfigMapReconciler.Reconcile` | internal/controller/configmap_controller.go:55-95 | One reconciliation satisfies `ConfigMapRun`. The ConfigMap store is never changed, and the configuration changes only as `UpdatedMaxPodAge` says. |
| `ConfigMapController.OtherKeysIgnored` | internal/controller/configmap_controller.go:72-78 | Adding, changing or removing any entry other than `maxPodAge` does not change the update. |
| `ConfigMapController.ParsedValueStoredExactly` | internal/controller/configmap_controller.go:78-93 | Any parsed duration is stored as it is, zero and negative ones included. |
| `ConfigMapController.UpdateScenarios` | internal/controller/configmap_controller.go:69-93 | `{"maxPodAge": "45m"}` sets 45 minutes; `{}` leaves the value as it was. |
| `ConfigMapController.Filter` | internal/controller/configmap_controller.go:99-101 | The event filter accepts exactly the keys the reconciler's own name check accepts. |
| `ConfigMapController.FilteredOutIsNoOp` | internal/controller/configmap_controller.go:58-61 | A request the filter would have dropped, if delivered anyway, makes no fetch and leaves the configuration unchanged, with an empty result and no error. |
| `ConfigMapController.ConfigMapRunOutcome` | internal/controller/configmap_controller.go:55-95 | The result is always empty. The only error is a non-not-found fetch error, returned unchanged with the configuration untouched. Any change of the configuration is a value parsed from the fetched designated ConfigMap. |
| `ConfigMapController.ConfigMapRunUnchanged` | internal/controller/configmap_controller.go:58-85 | Another object's key (then with no fetch), a missing ConfigMap, or a missing or invalid `maxPodAge` leaves the configuration unchanged, with an empty result and no error. |
| `ConfigMapController.ReplayKeepsLastAccepted` | internal/controller/configmap_controller.go:55-95 | After any sequence of ConfigMap versions, the configuration holds the value from the last version that parsed, or the starting value if none did. |

`Wiring.ConfigUpdateReachesPodReconciler` (no contract of its own) checks by
assertions that, with one shared configuration, a ConfigMap setting
`maxPodAge` to 45 minutes makes the pod reconciler delete a Failed pod aged 50
minutes, and that the pod only waits a minute if the ConfigMap fetch failed.

Two consequences of the code that a reader might not expect:

- Not-found on delete is not treated as success. The code wraps every delete error, not-found included, and returns it. `PodRunDeleteNotFound` states this.
- A failed delete leaves the pod in place, so two runs in a row may issue two deletes. `ReconcileTwice` states what does hold.

## Left out

- The `sync.Mutex` in `PodReconcilerConfig`: the model is sequential, so each call is atomic.
- Concurrency across reconcilers is not modelled.
- `SetupWithManager` of both controllers (watches, predicates, registration). Only the two filter closures are modelled, as `PodController.Filter` and `ConfigMapController.Filter`.
- The internals of `time.ParseDuration`. It is the arbitrary `parseDuration` function.
- `time.Since` and the wall clock. They are replaced by the `now` parameter.
- The saturation of Go's `Time.Sub` at the int64 bounds is not modelled; ages are exact integers.
- Go int64 wrap-around. Durations are mathematical integers everywhere except `RequeueDelayInt64` and its two lemmas (see Findings).
- The Kubernetes API server. It is the map store `Client<T>`, with nondeterministic failures.
- Graceful deletion is not modelled: a successful delete removes the pod at once.
- The source deletes through the fetched pod object; the model deletes the request's key. These are the same key, since the pod was fetched under it.
- Logging. The old value read before `SetMaxPodAge` is used only for a log line, so it is read and dropped.
- RBAC markers and the empty Ginkgo test.
- controller-runtime's retry and backoff after an error. A run only returns the error.
- `Result.requeue`, the Requeue flag: it is modelled, and no path sets it.
- Negative `maxPodAge`: it is accepted, as in the source. With `maxPodAge` at or below -1s, the requeue delay is zero or negative, so `RequeueDelay` claims positivity only above -1s.
- `PodController.ReconcileTwice`: it states "no second delete" only after the first run removed the pod, because a failed delete leaves the pod to be deleted again. It states "same outcome" only for equal instants and `maxPodAge`, since otherwise a waiting pod may have expired. "No second delete" rests on a successful delete removing the pod at once; a terminating pod that is still listed would be deleted again.

## Findings

| source | as written | input that shows it | evidently intended | confidence | as-written member | corrected member |
|---|---|---|---|---|---|---|
| internal/controller/pod_controller.go:84 | The requeue delay adds one second to `maxPodAge` in int64 arithmetic before taking the minimum with one minute. | `maxPodAge` = "2562047h47m16s", or any value above MaxInt64 − 1s. The sum wraps to about −292 years, so RequeueAfter is negative and controller-runtime does not requeue. A later lowering of `maxPodAge` then goes unnoticed by waiting pods until some unrelated event. | The delay is min(1 minute, `maxPodAge` + 1s) computed exactly: here, one minute. | medium, not executed | `PodController.RequeueDelayInt64Overflows` | `PodController.RequeueDelay` |
