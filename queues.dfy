/** `QueuesService` (src/queues/queues.service.ts): the Redis connection
    chosen from the environment at construction, the lazy registry of one
    queue per name, and the default job options `add` merges the caller's
    over. The process environment is a map from variable name to value; a
    variable that is not set is absent. BullMQ itself is not modelled: a
    queue is its name, its connection and the order in which it was
    created, and `add` yields the call it makes on the queue. */
module Queues {
  import opened Wrappers
  import opened Text

  type Env = map<string, string>

  function EnvGet(env: Env, key: string): Option<string> {
    if key in env then Some(env[key]) else None
  }

  // ---------------------------------------------------------- connection

  datatype Tls = Tls(rejectUnauthorized: bool)

  datatype Connection =
    | UrlConnection(url: string)
    | HostConnection(host: Option<string>, port: JsNumber, username: Option<string>,
                     password: Option<string>, connectTimeout: nat, tls: Option<Tls>)

  const DefaultPort: nat := 6379
  const ConnectTimeout: nat := 5000

  /** A set, non-blank `REDIS_URL`. */
  predicate HasUrl(env: Env) {
    Truthy(EnvGet(env, "REDIS_URL")) && Trim(env["REDIS_URL"]) != ""
  }

  /** `(REDIS_TLS || '').toLowerCase() === 'true'`. */
  predicate WantsTls(env: Env) {
    ToLower(OrElse(EnvGet(env, "REDIS_TLS"), "")) == "true"
  }

  /** `Number(REDIS_PORT || 6379)`: the fallback is the number itself. */
  function PortNumber(v: Option<string>): JsNumber {
    if Truthy(v) then ToNumber(v.value) else Decimal(DefaultPort)
  }

  /** The `connection` initialiser. */
  function ConnectionFor(env: Env): (c: Connection)
    ensures c.UrlConnection? <==> HasUrl(env)
    ensures c.UrlConnection? ==> c.url == env["REDIS_URL"]
    ensures c.HostConnection? ==>
      && c.host == EnvGet(env, "REDIS_HOST") && c.username == EnvGet(env, "REDIS_USER")
      && c.password == EnvGet(env, "REDIS_PASSWORD") && c.connectTimeout == 5000
      && (c.tls.Some? <==> WantsTls(env)) && (c.tls.Some? ==> c.tls.value == Tls(false))
  {
    if HasUrl(env) then UrlConnection(env["REDIS_URL"])
    else
      HostConnection(
        EnvGet(env, "REDIS_HOST"),
        PortNumber(EnvGet(env, "REDIS_PORT")),
        EnvGet(env, "REDIS_USER"),
        EnvGet(env, "REDIS_PASSWORD"),
        ConnectTimeout,
        if WantsTls(env) then Some(Tls(false)) else None)
  }

  /** The URL is kept exactly as given, surrounding blanks included, and
      then nothing else in the environment matters. */
  lemma UrlWins(env: Env, other: Env)
    requires HasUrl(env) && "REDIS_URL" in other && other["REDIS_URL"] == env["REDIS_URL"]
    ensures ConnectionFor(other) == ConnectionFor(env) == UrlConnection(env["REDIS_URL"])
  {
  }

  /** An unset or empty `REDIS_PORT` means 6379; a printed port number
      reads back as itself. */
  lemma PortOf(env: Env, n: nat)
    requires !HasUrl(env)
    ensures !Truthy(EnvGet(env, "REDIS_PORT")) ==> ConnectionFor(env).port == Decimal(6379)
    ensures EnvGet(env, "REDIS_PORT") == Some(NatToString(n)) ==> ConnectionFor(env).port == Decimal(n)
  {
    if EnvGet(env, "REDIS_PORT") == Some(NatToString(n)) {
      NumberOfPrinted(n);
    }
  }

  /** TLS is switched on by `true` in any letter case (`TRUE` and `True`
      among them), and by nothing else. */
  lemma TlsAnyCase(env: Env, v: string)
    requires !HasUrl(env) && EnvGet(env, "REDIS_TLS") == Some(v)
    ensures ConnectionFor(env).tls.Some? <==> ToLower(v) == "true"
    ensures v == "TRUE" || v == "True" ==> ConnectionFor(env).tls.Some?
  {
    if v == "" {
      assert ToLower(v) == "";
    }
  }

  // --------------------------------------------------------- job options

  /** The values a job option can hold (`undefined` included: a key given
      as `undefined` still overrides). */
  datatype OptValue =
    | Undefined
    | Num(n: int)
    | Flag(b: bool)
    | Retention(age: nat, count: nat)
    | BackoffSpec(kind: string, delay: nat)
    | Other(raw: string)

  type JobsOptions = map<string, OptValue>

  /** The literal `add` spreads the caller's options over. */
  function Defaults(): (d: JobsOptions)
    ensures d.Keys == {"removeOnComplete", "removeOnFail", "attempts", "backoff"}
  {
    map[
      "removeOnComplete" := Retention(3600, 1000),
      "removeOnFail" := Retention(86400, 1000),
      "attempts" := Num(2),
      "backoff" := BackoffSpec("exponential", 2000)]
  }

  /** `{ ...defaults, ...opts }`: a shallow merge in which every key the
      caller gives replaces the default wholesale; `...undefined` adds
      nothing. */
  function MergeOptions(opts: Option<JobsOptions>): (m: JobsOptions)
    ensures opts.Some? ==> m.Keys == Defaults().Keys + opts.value.Keys
    ensures opts.None? ==> m == Defaults()
    ensures opts.Some? ==> forall k :: k in opts.value ==> m[k] == opts.value[k]
    ensures opts.Some? ==> forall k :: k in Defaults() && k !in opts.value ==> m[k] == Defaults()[k]
  {
    if opts.Some? then Defaults() + opts.value else Defaults()
  }

  /** With nothing given, a job is kept an hour or 1000 jobs after
      completion, a day or 1000 jobs after failure, and tried twice with
      exponential backoff from two seconds. */
  lemma DefaultJobOptions()
    ensures var m := MergeOptions(None);
      && m["removeOnComplete"] == Retention(3600, 1000)
      && m["removeOnFail"] == Retention(86400, 1000)
      && m["attempts"] == Num(2)
      && m["backoff"] == BackoffSpec("exponential", 2000)
  {
  }

  /** A given `backoff` replaces the default object as a whole: its kind is
      not kept when only a delay is meant to change, and the other defaults
      stay. */
  lemma BackoffReplacedWholesale(opts: JobsOptions, v: OptValue)
    requires opts == map["backoff" := v]
    ensures var m := MergeOptions(Some(opts));
      && m["backoff"] == v
      && m["attempts"] == Num(2)
      && m.Keys == Defaults().Keys
  {
  }

  // ------------------------------------------------------------ registry

  /** A queue: its name, the connection it was opened with, and its rank
      among the queues created, which tells different instances apart. */
  datatype QueueRef = QueueRef(name: string, connection: Connection, serial: nat)

  /** The call `add` makes on the queue: the job name (the queue's name),
      the payload unchanged and the merged options. */
  datatype AddCall<T> = AddCall(queue: QueueRef, jobName: string, payload: T, options: JobsOptions)

  class QueueRegistry {
    const connection: Connection
    var queues: map<string, QueueRef>
    var created: nat

    /** Every registered queue is under its own name, uses the service's
        connection and is a distinct instance. */
    predicate Valid()
      reads this
    {
      && (forall n :: n in queues ==> queues[n].name == n && queues[n].connection == connection)
      && (forall n :: n in queues ==> queues[n].serial < created)
      && (forall a, b :: a in queues && b in queues && a != b ==> queues[a].serial != queues[b].serial)
    }

    constructor(env: Env)
      ensures Valid() && connection == ConnectionFor(env) && queues == map[] && created == 0
    {
      connection := ConnectionFor(env);
      queues := map[];
      created := 0;
    }

    /** `queue(name)`: the registered queue, or a new one registered under
        the name first. Other entries are untouched. */
    method Queue(name: string) returns (q: QueueRef)
      requires Valid()
      modifies this
      ensures Valid()
      ensures name in queues && q == queues[name] && q.name == name && q.connection == connection
      ensures name in old(queues) ==> queues == old(queues) && q == old(queues)[name] && created == old(created)
      ensures name !in old(queues) ==>
        q == QueueRef(name, connection, old(created)) && queues == old(queues)[name := q] && created == old(created) + 1
    {
      if name !in queues {
        var q0 := QueueRef(name, connection, created);
        queues := queues[name := q0];
        created := created + 1;
      }
      q := queues[name];
    }

    /** `add(name, payload, opts)`: on the queue of that name, a job named
        after the queue with the merged options. */
    method Add<T>(name: string, payload: T, opts: Option<JobsOptions>) returns (call: AddCall<T>)
      requires Valid()
      modifies this
      ensures Valid()
      ensures name in queues && call == AddCall(queues[name], name, payload, MergeOptions(opts))
      ensures name in old(queues) ==> queues == old(queues) && created == old(created)
      ensures name !in old(queues) ==> queues == old(queues)[name := call.queue] && created == old(created) + 1
    {
      var q := Queue(name);
      call := AddCall(q, name, payload, MergeOptions(opts));
    }
  }

  /** Two calls for the same name return the same queue, and the second
      changes nothing. */
  method SameQueueTwice(r: QueueRegistry, name: string) returns (first: QueueRef, second: QueueRef)
    requires r.Valid()
    modifies r
    ensures first == second && name in r.queues && r.queues[name] == first
    ensures r.queues == old(r.queues)[name := first]
  {
    first := r.Queue(name);
    second := r.Queue(name);
  }
}
