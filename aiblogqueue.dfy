/** `AiBlogQueue` (src/queues/workers/ai-blog.queue.ts): jobs on the
    `ai-blog` queue carry the `generateWithAi` request; the worker hands
    each job's data to the blog service unchanged; `enqueue` reports the
    new job's id and `getStatus` maps a job's state to the reply. The
    job store is a lookup from id to the job, if any; the id BullMQ assigns
    is an input. */
module AiBlogQueue {
  import opened Wrappers
  import opened Text
  import opened Queues
  import Blog = BlogService
  import Ai = AiService

  const QueueName := "ai-blog"

  /** The worker `onModuleInit` opens: its queue, the registry's
      connection and `Number(AI_QUEUE_CONCURRENCY || 1)`. */
  datatype WorkerConfig = WorkerConfig(queueName: string, connection: Connection, concurrency: JsNumber)

  function Concurrency(env: Env): JsNumber {
    if Truthy(EnvGet(env, "AI_QUEUE_CONCURRENCY")) then ToNumber(env["AI_QUEUE_CONCURRENCY"]) else Decimal(1)
  }

  /** An unset or empty variable means one job at a time; a printed number
      is read as itself. */
  lemma ConcurrencyOf(env: Env, n: nat)
    ensures !Truthy(EnvGet(env, "AI_QUEUE_CONCURRENCY")) ==> Concurrency(env) == Decimal(1)
    ensures EnvGet(env, "AI_QUEUE_CONCURRENCY") == Some(NatToString(n)) ==> Concurrency(env) == Decimal(n)
  {
    if EnvGet(env, "AI_QUEUE_CONCURRENCY") == Some(NatToString(n)) {
      NumberOfPrinted(n);
    }
  }

  /** `job.progress`: a number, fractional ones included, or anything else
      a job may report. */
  datatype Progress = NumberProgress(n: real) | OtherProgress(raw: string)

  /** What `getStatus` reads of a job: `getState()`, `returnvalue`,
      `failedReason` and `progress`. */
  datatype JobView<R> = JobView(state: string, returnvalue: Option<R>, failedReason: Option<string>, progress: Progress)

  /** The reply of `getStatus`; an absent field is `undefined`. */
  datatype Status<R> = Status(status: string, result: Option<R>, reason: Option<string>, progress: Option<real>)

  /** The reply for a looked-up job. */
  function StatusOf<R>(job: Option<JobView<R>>): (s: Status<R>)
    ensures job.None? ==> s == Status("not_found", None, None, None)
    ensures job.Some? ==> s.status == job.value.state
    ensures s.result.Some? ==> job.Some? && job.value.state == "completed" && s.result == job.value.returnvalue
    ensures s.reason.Some? ==> job.Some? && job.value.state == "failed" && s.reason == job.value.failedReason
    ensures s.progress.Some? <==>
      job.Some? && job.value.state != "completed" && job.value.state != "failed" && job.value.progress.NumberProgress?
  {
    if job.None? then Status("not_found", None, None, None)
    else if job.value.state == "completed" then Status("completed", job.value.returnvalue, None, None)
    else if job.value.state == "failed" then Status("failed", None, job.value.failedReason, None)
    else
      Status(job.value.state, None, None,
        if job.value.progress.NumberProgress? then Some(job.value.progress.n) else None)
  }

  /** A completed job reports its return value, a failed one its reason,
      any other its numeric progress; at most one of the three is set. */
  lemma StatusByState<R>(job: JobView<R>)
    ensures var s := StatusOf(Some(job));
      && (job.state == "completed" ==> s.result == job.returnvalue && s.reason.None? && s.progress.None?)
      && (job.state == "failed" ==> s.reason == job.failedReason && s.result.None? && s.progress.None?)
      && (job.state != "completed" && job.state != "failed" ==>
            s.result.None? && s.reason.None?
            && (job.progress.NumberProgress? ==> s.progress == Some(job.progress.n)))
  {
  }

  /** `{ jobId: String(job.id) }`: an id that is not set prints as
      `undefined`. */
  datatype Enqueued = Enqueued(jobId: string)

  function JobIdText(id: Option<string>): string {
    if id.Some? then id.value else "undefined"
  }

  class AiBlogQueue {
    const queues: QueueRegistry
    const blogService: Blog.BlogStore
    var worker: Option<WorkerConfig>

    constructor(queues: QueueRegistry, blogService: Blog.BlogStore)
      ensures this.queues == queues && this.blogService == blogService && worker == None
    {
      this.queues := queues;
      this.blogService := blogService;
      worker := None;
    }

    /** `onModuleInit`: opens the worker on the `ai-blog` queue. */
    method OnModuleInit(env: Env)
      modifies this`worker
      ensures worker == Some(WorkerConfig(QueueName, queues.connection, Concurrency(env)))
    {
      worker := Some(WorkerConfig(QueueName, queues.connection, Concurrency(env)));
    }

    /** The worker's processor: `generateWithAi(job.data)`, its result
        returned as the job's. */
    method Process(data: Blog.GenerateRequest, env: Ai.AiEnv, frontUrl: Option<string>, f: Blog.Foreign)
      returns (result: Result<Blog.Created, Blog.Error>)
      requires blogService.Valid()
      modifies blogService`blogs
      ensures blogService.Valid()
      ensures exists upload, social ::
        Blog.Step(blogService.blogs, result, upload, social)
          == Blog.GenerateStep(old(blogService.blogs), frontUrl, data, Ai.Generate(data.prompt, env, f.ai).result, f)
    {
      var upload, social;
      result, upload, social := blogService.GenerateWithAi(env, frontUrl, data, f);
    }

    /** `enqueue(payload)`: adds a job named `ai-blog` with the payload and
        the default options, and reports its id. */
    method Enqueue(payload: Blog.GenerateRequest, assignedId: Option<string>)
      returns (reply: Enqueued, call: AddCall<Blog.GenerateRequest>)
      requires queues.Valid()
      modifies queues
      ensures queues.Valid() && QueueName in queues.queues
      ensures call == AddCall(queues.queues[QueueName], QueueName, payload, MergeOptions(None))
      ensures reply == Enqueued(JobIdText(assignedId))
    {
      call := queues.Add(QueueName, payload, None);
      reply := Enqueued(JobIdText(assignedId));
    }

    /** `getStatus(jobId)`: opens the `ai-blog` queue if need be, looks the
        job up and maps it to the reply. */
    method GetStatus<R>(jobId: string, lookup: string -> Option<JobView<R>>) returns (s: Status<R>)
      requires queues.Valid()
      modifies queues
      ensures queues.Valid() && QueueName in queues.queues
      ensures s == StatusOf(lookup(jobId))
    {
      var q := queues.Queue(QueueName);
      var job := lookup(jobId);
      if job.None? {
        return Status("not_found", None, None, None);
      }
      var state := job.value.state;
      if state == "completed" {
        return Status(state, job.value.returnvalue, None, None);
      }
      if state == "failed" {
        return Status(state, None, job.value.failedReason, None);
      }
      var progress := if job.value.progress.NumberProgress? then Some(job.value.progress.n) else None;
      s := Status(state, None, None, progress);
    }
  }
}
