/**
 * ConfigMapReconciler: copies the `maxPodAge` entry of one designated
 * ConfigMap into the shared PodReconcilerConfig. time.ParseDuration is not
 * part of this model: it is the reconciler's `parseDuration` parameter, any
 * function from strings to an optional duration, and every property below
 * holds for all of them.
 */
module ConfigMapController {
  import opened Wrappers
  import opened Durations
  import opened Kube
  import opened Config

  /** The only key of the ConfigMap's data that the reconciler reads. */
  const MaxPodAgeKey: string := "maxPodAge"

  /**
   * The event filter installed by SetupWithManager: "<namespace>/<name>" must
   * be the designated name. It accepts exactly the keys the reconciler's own
   * guard accepts.
   */
  predicate Filter(o: NamespacedName, configMapFullName: string): (b: bool)
    ensures b <==> o.String() == configMapFullName
  {
    o.namespace + "/" + o.name == configMapFullName
  }

  /** The new maxPodAge a ConfigMap's data carries, if its `maxPodAge` entry is present and parses. */
  function ParsedMaxPodAge(data: map<string, string>, parseDuration: string -> Option<Duration>): (r: Option<Duration>)
    ensures r != None ==> MaxPodAgeKey in data && parseDuration(data[MaxPodAgeKey]) == r
    ensures r == None <==> MaxPodAgeKey !in data || parseDuration(data[MaxPodAgeKey]) == None
  {
    if MaxPodAgeKey in data then parseDuration(data[MaxPodAgeKey]) else None
  }

  /**
   * The configuration after a ConfigMap with `data` has been read: the parsed
   * value, stored exactly and with no range check, or the previous value when
   * the entry is missing or does not parse.
   */
  function UpdatedMaxPodAge(current: Duration, data: map<string, string>,
                            parseDuration: string -> Option<Duration>): (r: Duration)
    ensures r == current || ParsedMaxPodAge(data, parseDuration) == Some(r)
    ensures MaxPodAgeKey in data && parseDuration(data[MaxPodAgeKey]) != None ==>
              r == parseDuration(data[MaxPodAgeKey]).value
    ensures MaxPodAgeKey !in data || parseDuration(data[MaxPodAgeKey]) == None ==> r == current
  {
    match ParsedMaxPodAge(data, parseDuration)
    case Some(d) => d
    case None => current
  }

  /**
   * One reconciliation of request `req` by the reconciler for
   * `configMapFullName`: `objects` is the store (which it never changes),
   * `calls` the calls it made on it, `before` and `after` the configured
   * maxPodAge, and (`res`, `err`) what Reconcile returns.
   */
  ghost predicate ConfigMapRun(req: NamespacedName, configMapFullName: string,
                               parseDuration: string -> Option<Duration>,
                               objects: map<NamespacedName, ConfigMap>, calls: seq<Call<ConfigMap>>,
                               before: Duration, after: Duration, res: Result, err: Option<Error>)
  {
    if req.String() != configMapFullName then
      calls == [] && after == before && res == Empty && err == None
    else
      && |calls| == 1
      && calls[0].GetCall? && calls[0].key == req
      && MayAnswerGet(objects, req, calls[0].answer)
      && res == Empty
      && match calls[0].answer
         case GetFailed(e) => err == IgnoreNotFound(e) && after == before
         case Found(cm) => err == None && after == UpdatedMaxPodAge(before, cm.data, parseDuration)
  }

  class ConfigMapReconciler {
    const client: Client<ConfigMap>
    const config: PodReconcilerConfig
    /** The namespace + name of the one ConfigMap this reconciler reads. */
    const configMapFullName: string
    /** time.ParseDuration. */
    const parseDuration: string -> Option<Duration>

    constructor (client: Client<ConfigMap>, config: PodReconcilerConfig, configMapFullName: string,
                 parseDuration: string -> Option<Duration>)
      ensures this.client == client && this.config == config
      ensures this.configMapFullName == configMapFullName && this.parseDuration == parseDuration
    {
      this.client := client;
      this.config := config;
      this.configMapFullName := configMapFullName;
      this.parseDuration := parseDuration;
    }

    /**
     * Reconcile: the early-return chain of the source. A missing or
     * unparsable entry is only logged there; here it returns like success.
     */
    method Reconcile(req: NamespacedName) returns (res: Result, err: Option<Error>)
      modifies client`log, config`maxPodAge
      ensures client.objects == old(client.objects)
      ensures old(client.log) <= client.log
      ensures ConfigMapRun(req, configMapFullName, parseDuration, client.objects,
                           client.log[|old(client.log)|..], old(config.maxPodAge), config.maxPodAge, res, err)
    {
      ghost var log0 := client.log;
      if req.String() != configMapFullName {
        return Empty, None;
      }

      var fetched := client.Get(req);
      assert client.log[|log0|..] == [GetCall(req, fetched)];
      if fetched.GetFailed? {
        return Empty, IgnoreNotFound(fetched.err);
      }
      var data := fetched.obj.data;

      if MaxPodAgeKey !in data {
        // missing maxPodAge: not retried, the ConfigMap must be fixed by hand
        return Empty, None;
      }
      var maxPodAgeStr := data[MaxPodAgeKey];
      var maxPodAge := parseDuration(maxPodAgeStr);
      if maxPodAge == None {
        // invalid maxPodAge: not retried either
        return Empty, None;
      }

      var oldMaxPodAge := config.MaxPodAge();
      config.SetMaxPodAge(maxPodAge.value);
      return Empty, None;
    }
  }

  // Properties of the update.

  /** Entries other than `maxPodAge` are ignored: adding, changing or removing one changes nothing. */
  lemma OtherKeysIgnored(current: Duration, data: map<string, string>, k: string, v: string,
                         parseDuration: string -> Option<Duration>)
    requires k != MaxPodAgeKey
    ensures UpdatedMaxPodAge(current, data[k := v], parseDuration) == UpdatedMaxPodAge(current, data, parseDuration)
    ensures UpdatedMaxPodAge(current, data - {k}, parseDuration) == UpdatedMaxPodAge(current, data, parseDuration)
  {
  }

  /** Any parsed value is stored as it is, zero and negative durations included. */
  lemma ParsedValueStoredExactly(current: Duration, s: string, d: Duration,
                                 parseDuration: string -> Option<Duration>)
    requires parseDuration(s) == Some(d)
    ensures UpdatedMaxPodAge(current, map[MaxPodAgeKey := s], parseDuration) == d
  {
  }

  /** Scenarios: {"maxPodAge": "45m"} sets 45 minutes; {} leaves the value as it was. */
  lemma UpdateScenarios(current: Duration, parseDuration: string -> Option<Duration>)
    requires parseDuration("45m") == Some(45 * Minute)
    ensures UpdatedMaxPodAge(current, map[MaxPodAgeKey := "45m"], parseDuration) == 45 * Minute
    ensures UpdatedMaxPodAge(current, map[], parseDuration) == current
  {
  }

  // Properties of one reconciliation.

  /**
   * A request the event filter would have dropped, if it is delivered
   * anyway, makes no call on the store and leaves the configuration alone.
   */
  lemma FilteredOutIsNoOp(req: NamespacedName, configMapFullName: string,
                          parseDuration: string -> Option<Duration>,
                          objects: map<NamespacedName, ConfigMap>, calls: seq<Call<ConfigMap>>,
                          before: Duration, after: Duration, res: Result, err: Option<Error>)
    requires !Filter(req, configMapFullName)
    requires ConfigMapRun(req, configMapFullName, parseDuration, objects, calls, before, after, res, err)
    ensures calls == [] && after == before && res == Empty && err == None
  {
  }

  /**
   * A reconciliation never returns a non-empty Result; its only error is a
   * fetch error other than not-found, returned unchanged; and the
   * configuration only ever changes to a value parsed from the fetched
   * designated ConfigMap.
   */
  lemma ConfigMapRunOutcome(req: NamespacedName, configMapFullName: string,
                            parseDuration: string -> Option<Duration>,
                            objects: map<NamespacedName, ConfigMap>, calls: seq<Call<ConfigMap>>,
                            before: Duration, after: Duration, res: Result, err: Option<Error>)
    requires ConfigMapRun(req, configMapFullName, parseDuration, objects, calls, before, after, res, err)
    ensures res == Empty
    ensures err != None ==>
              |calls| == 1 && calls[0].answer.GetFailed? && !IsNotFound(calls[0].answer.err)
              && err == Some(calls[0].answer.err) && after == before
    ensures after != before ==>
              req.String() == configMapFullName && |calls| == 1 && calls[0].answer.Found?
              && ParsedMaxPodAge(calls[0].answer.obj.data, parseDuration) == Some(after)
  {
  }

  /**
   * A request for any other object, a ConfigMap that is not found, and a
   * ConfigMap whose `maxPodAge` is missing or does not parse all leave the
   * configuration unchanged and return no error.
   */
  lemma ConfigMapRunUnchanged(req: NamespacedName, configMapFullName: string,
                              parseDuration: string -> Option<Duration>,
                              objects: map<NamespacedName, ConfigMap>, calls: seq<Call<ConfigMap>>,
                              before: Duration, after: Duration, res: Result, err: Option<Error>)
    requires ConfigMapRun(req, configMapFullName, parseDuration, objects, calls, before, after, res, err)
    requires || req.String() != configMapFullName
             || (|calls| == 1 && calls[0].answer.GetFailed? && IsNotFound(calls[0].answer.err))
             || (|calls| == 1 && calls[0].answer.Found? && ParsedMaxPodAge(calls[0].answer.obj.data, parseDuration) == None)
    ensures after == before && res == Empty && err == None
    ensures req.String() != configMapFullName ==> calls == []
  {
  }

  // Successive reconciliations.

  /** The configuration after the designated ConfigMap has been read with each of `payloads` in turn. */
  function Replay(current: Duration, payloads: seq<map<string, string>>,
                  parseDuration: string -> Option<Duration>): Duration
    decreases |payloads|
  {
    if payloads == [] then current
    else Replay(UpdatedMaxPodAge(current, payloads[0], parseDuration), payloads[1..], parseDuration)
  }

  /** The value parsed from the last of `payloads` whose `maxPodAge` entry parses, if any. */
  function LastAccepted(payloads: seq<map<string, string>>,
                        parseDuration: string -> Option<Duration>): Option<Duration>
    decreases |payloads|
  {
    if payloads == [] then None
    else match ParsedMaxPodAge(payloads[|payloads| - 1], parseDuration)
      case Some(d) => Some(d)
      case None => LastAccepted(payloads[..|payloads| - 1], parseDuration)
  }

  lemma {:induction false} ReplaySnoc(current: Duration, payloads: seq<map<string, string>>,
                                     data: map<string, string>, parseDuration: string -> Option<Duration>)
    ensures Replay(current, payloads + [data], parseDuration)
            == UpdatedMaxPodAge(Replay(current, payloads, parseDuration), data, parseDuration)
    decreases |payloads|
  {
    if payloads == [] {
      assert [] + [data] == [data];
      assert [data][1..] == [];
    } else {
      assert (payloads + [data])[1..] == payloads[1..] + [data];
      ReplaySnoc(UpdatedMaxPodAge(current, payloads[0], parseDuration), payloads[1..], data, parseDuration);
    }
  }

  /**
   * The shared configuration always holds a previously accepted value: after
   * any sequence of ConfigMap versions it is the value parsed from the last
   * one that parsed, or the starting value when none did. Invalid versions
   * never disturb it.
   */
  lemma {:induction false} ReplayKeepsLastAccepted(current: Duration, payloads: seq<map<string, string>>,
                                                  parseDuration: string -> Option<Duration>)
    ensures Replay(current, payloads, parseDuration)
            == match LastAccepted(payloads, parseDuration) case Some(d) => d case None => current
    decreases |payloads|
  {
    if payloads != [] {
      var init, last := payloads[..|payloads| - 1], payloads[|payloads| - 1];
      assert payloads == init + [last];
      ReplaySnoc(current, init, last, parseDuration);
      ReplayKeepsLastAccepted(current, init, parseDuration);
    }
  }
}
