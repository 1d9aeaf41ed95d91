/**
 * The parts of the Kubernetes API and of the controller-runtime client that the
 * two reconcilers use: object keys, API errors, reconcile results, the Pod and
 * ConfigMap objects as the reconcilers see them, and an object store standing
 * for the API server behind `client.Client`.
 */
module Kube {
  import opened Wrappers
  import opened Durations

  /** types.NamespacedName: the key a reconcile request carries. */
  datatype NamespacedName = NamespacedName(namespace: string, name: string) {

    /** NamespacedName.String(): namespace and name joined by '/'. */
    function String(): (s: string)
      ensures |s| == |namespace| + 1 + |name|
      ensures s[..|namespace|] == namespace && s[|namespace|] == '/'
      ensures s[|namespace| + 1..] == name
    {
      namespace + "/" + name
    }
  }

  /**
   * A Go error value as far as the reconcilers inspect it: the API server's
   * not-found status, any other failure, and an error wrapped with fmt.Errorf's
   * "%w" verb.
   */
  datatype Error =
    | NotFound
    | Failure(message: string)
    | Wrapped(message: string, cause: Error)

  /** The innermost cause of an error: the error itself unless it wraps another. */
  function RootCause(e: Error): (r: Error)
    ensures !r.Wrapped?
  {
    match e
    case Wrapped(_, cause) => RootCause(cause)
    case _ => e
  }

  /**
   * apierrors.IsNotFound: looks through every "%w" wrapping, as errors.As
   * does, so an error is not-found exactly when its innermost cause is.
   */
  predicate IsNotFound(e: Error): (b: bool)
    ensures b <==> RootCause(e) == NotFound
  {
    match e
    case NotFound => true
    case Failure(_) => false
    case Wrapped(_, cause) => IsNotFound(cause)
  }

  /** client.IgnoreNotFound: a not-found error becomes nil, any other error is kept. */
  function IgnoreNotFound(e: Error): (r: Option<Error>)
    ensures r == None <==> IsNotFound(e)
    ensures r != None ==> r == Some(e)
  {
    if IsNotFound(e) then None else Some(e)
  }

  /**
   * ctrl.Result. The empty result asks for no requeue; a positive requeueAfter
   * asks to be invoked again after that delay.
   */
  datatype Result = Result(requeue: bool, requeueAfter: Duration)

  const Empty: Result := Result(false, 0)

  /** v1.PodPhase is a string type; these are the five phases the API defines. */
  type PodPhase = string

  const PodPending: PodPhase := "Pending"
  const PodRunning: PodPhase := "Running"
  const PodSucceeded: PodPhase := "Succeeded"
  const PodFailed: PodPhase := "Failed"
  const PodUnknown: PodPhase := "Unknown"

  /** The fields of a v1.Pod that the pod reconciler reads. */
  datatype Pod = Pod(key: NamespacedName, phase: PodPhase, creationTimestamp: Time)

  /** The fields of a v1.ConfigMap that the ConfigMap reconciler reads. */
  datatype ConfigMap = ConfigMap(key: NamespacedName, data: map<string, string>)

  /** What a client.Get call delivers: the object, or the error it returned. */
  datatype GetResult<T> = Found(obj: T) | GetFailed(err: Error)

  /** One call made on the store, with the answer it gave. */
  datatype Call<T> =
    | GetCall(key: NamespacedName, answer: GetResult<T>)
    | DeleteCall(key: NamespacedName, outcome: Option<Error>)

  /**
   * The answers the API server may give to Get: the stored object when there
   * is one, not-found when there is none, or some other (transient) failure
   * either way.
   */
  ghost predicate MayAnswerGet<T>(objects: map<NamespacedName, T>, key: NamespacedName, r: GetResult<T>) {
    match r
    case Found(obj) => key in objects && objects[key] == obj
    case GetFailed(e) => key in objects ==> !IsNotFound(e)
  }

  /**
   * The answers the API server may give to Delete: success only for a stored
   * object; otherwise an error, which may be not-found even for an object the
   * reconciler has just read, since someone else may have deleted it since.
   */
  ghost predicate MayAnswerDelete<T>(objects: map<NamespacedName, T>, key: NamespacedName, r: Option<Error>) {
    r == None ==> key in objects
  }

  /** The store after a Delete answered `r`: the key is gone after success and after not-found. */
  function AfterDelete<T>(objects: map<NamespacedName, T>, key: NamespacedName, r: Option<Error>): map<NamespacedName, T> {
    if r == None || IsNotFound(r.value) then objects - {key} else objects
  }

  /**
   * The object store behind controller-runtime's client: a map from keys to
   * objects. Its calls may fail for reasons outside the model, so which answer
   * a call gets is chosen nondeterministically among the allowed ones. Every
   * call is recorded, with its answer, in the ghost log.
   */
  class Client<T> {
    var objects: map<NamespacedName, T>
    ghost var log: seq<Call<T>>

    constructor (objects: map<NamespacedName, T>)
      ensures this.objects == objects && log == []
    {
      this.objects := objects;
      log := [];
    }

    /** client.Get: reads the object stored under `key`; never changes the store. */
    method Get(key: NamespacedName) returns (r: GetResult<T>)
      modifies this`log
      ensures MayAnswerGet(objects, key, r)
      ensures log == old(log) + [GetCall(key, r)]
    {
      var unavailable: bool :| true;
      if unavailable {
        r := GetFailed(Failure("the server is currently unable to handle the request"));
      } else if key in objects {
        r := Found(objects[key]);
      } else {
        r := GetFailed(NotFound);
      }
      log := log + [GetCall(key, r)];
    }

    /**
     * client.Delete: removes the object under `key` when the call succeeds;
     * a not-found answer means it was already gone.
     */
    method Delete(key: NamespacedName) returns (err: Option<Error>)
      modifies this
      ensures MayAnswerDelete(old(objects), key, err)
      ensures objects == AfterDelete(old(objects), key, err)
      ensures log == old(log) + [DeleteCall(key, err)]
    {
      var unavailable: bool :| true;
      var deletedElsewhere: bool :| true;
      if unavailable {
        err := Some(Failure("the server is currently unable to handle the request"));
      } else if key in objects && !deletedElsewhere {
        err := None;
      } else {
        err := Some(NotFound);
      }
      objects := AfterDelete(objects, key, err);
      log := log + [DeleteCall(key, err)];
    }
  }
}
