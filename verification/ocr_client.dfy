/**
  The OCR client: the request is built once, then posted up to `maxRetries` times until an attempt
  yields a first choice's message content. Because the identical request is reused for every attempt,
  the service is represented only by what it answers to each attempt, `respond(attempt)`.
  Sleep durations are not modelled; sleeps are counted.
*/
module OcrClient {
  import opened Basics

  /** What one attempt ends in. */
  datatype Attempt =
    | RequestFailed          // the post, the status check or the JSON decoding raised a request error
    | NoChoices              // a KeyError inside the attempt: `choices` missing or empty, or a choice without message content
    | Choices(content: string)  // the first choice's message content
    | Unexpected             // any other exception, which leaves the client altogether

  /** Attempts that are logged, slept on and retried. */
  predicate Retryable(a: Attempt) {
    a.RequestFailed? || a.NoChoices?
  }

  /** What the client hands to its caller: a plain string, or an exception. */
  datatype Sent = Returned(text: string) | Raised

  /** The result together with the number of posts made and the number of sleeps taken. */
  datatype Reply = Reply(result: Sent, attempts: nat, sleeps: nat)

  /** The string returned once every attempt has failed. */
  const ExhaustedText := "Error: Failed to retrieve a valid response from the OpenAI API after multiple attempts."

  /** The retry budget used when the caller gives none. */
  const DefaultMaxRetries := 3

  /** What an attempt that is not retried makes the client do. */
  function Conclude(a: Attempt): (s: Sent)
    requires !Retryable(a)
    ensures s.Returned? <==> a.Choices?
    ensures a.Choices? ==> s.text == a.content
  {
    match a
    case Choices(content) => Returned(content)
    case Unexpected => Raised
  }

  /**
    What the client promises: every attempt it slept after was retryable; it either stopped at the
    first attempt that was not, with that attempt's result and without sleeping after it, or it used
    up the whole budget, sleeping after every attempt, and returned the fixed error text.
  */
  ghost predicate RetryContract(maxRetries: int, respond: nat -> Attempt, r: Reply) {
    && r.attempts <= Max0(maxRetries)
    && (forall i :: 0 <= i < r.sleeps ==> Retryable(respond(i)))
    && ((r.attempts == r.sleeps + 1 && !Retryable(respond(r.sleeps)) && r.result == Conclude(respond(r.sleeps)))
        || (r.attempts == r.sleeps == Max0(maxRetries) && r.result == Returned(ExhaustedText)))
  }

  /** The loop from iteration `attempt` on, every earlier iteration having failed and slept. */
  function SendFrom(respond: nat -> Attempt, maxRetries: int, attempt: nat): (r: Reply)
    decreases maxRetries - attempt
    ensures attempt <= r.sleeps
    ensures r.attempts == r.sleeps || r.attempts == r.sleeps + 1
    ensures forall i :: attempt <= i < r.sleeps ==> Retryable(respond(i))
    ensures r.attempts == r.sleeps + 1 ==>
              r.sleeps < maxRetries && !Retryable(respond(r.sleeps)) && r.result == Conclude(respond(r.sleeps))
    ensures r.attempts == r.sleeps ==>
              r.sleeps == (if attempt < maxRetries then maxRetries else attempt) && r.result == Returned(ExhaustedText)
  {
    if attempt >= maxRetries then Reply(Returned(ExhaustedText), attempt, attempt)
    else
      var answer := respond(attempt);
      if Retryable(answer) then SendFrom(respond, maxRetries, attempt + 1)
      else Reply(Conclude(answer), attempt + 1, attempt)
  }

  /** The whole client call with budget `maxRetries`. */
  function SendImageToOpenAI(maxRetries: int, respond: nat -> Attempt): (r: Reply)
    ensures RetryContract(maxRetries, respond, r)
  {
    SendFrom(respond, maxRetries, 0)
  }

  /** The contract leaves no freedom: at most one reply meets it. */
  lemma RetryContractIsDeterministic(maxRetries: int, respond: nat -> Attempt, r1: Reply, r2: Reply)
    requires RetryContract(maxRetries, respond, r1)
    requires RetryContract(maxRetries, respond, r2)
    ensures r1 == r2
  {
  }

  /** The client's behaviour depends only on which attempts are retried and on what the others answer. */
  lemma {:induction false} SameAnswersSameReply(maxRetries: int, f: nat -> Attempt, g: nat -> Attempt, attempt: nat)
    requires forall i :: attempt <= i < maxRetries ==> (Retryable(f(i)) <==> Retryable(g(i)))
    requires forall i :: attempt <= i < maxRetries && !Retryable(f(i)) ==> f(i) == g(i)
    ensures SendFrom(f, maxRetries, attempt) == SendFrom(g, maxRetries, attempt)
    decreases maxRetries - attempt
  {
    if attempt < maxRetries && Retryable(f(attempt)) {
      SameAnswersSameReply(maxRetries, f, g, attempt + 1);
    }
  }

  /** A response without usable choices is retried exactly like a failed request. */
  lemma MissingChoicesIsRetriedLikeRequestError(maxRetries: int, respond: nat -> Attempt, k: nat)
    ensures SendImageToOpenAI(maxRetries, (i: nat) => if i == k then NoChoices else respond(i))
         == SendImageToOpenAI(maxRetries, (i: nat) => if i == k then RequestFailed else respond(i))
  {
    SameAnswersSameReply(maxRetries, (i: nat) => if i == k then NoChoices else respond(i),
                         (i: nat) => if i == k then RequestFailed else respond(i), 0);
  }

  /** The first answer with content is returned at once, after one sleep per earlier failure. */
  lemma FirstContentReturnedAtOnce(maxRetries: int, respond: nat -> Attempt, k: nat, text: string)
    requires k < maxRetries
    requires forall i :: 0 <= i < k ==> Retryable(respond(i))
    requires respond(k) == Choices(text)
    ensures SendImageToOpenAI(maxRetries, respond) == Reply(Returned(text), k + 1, k)
  {
  }

  /** Fail, then succeed, with the default budget of three: two attempts, one sleep. */
  lemma ExampleFailThenSucceed(respond: nat -> Attempt, text: string)
    requires Retryable(respond(0))
    requires respond(1) == Choices(text)
    ensures SendImageToOpenAI(DefaultMaxRetries, respond) == Reply(Returned(text), 2, 1)
  {
    FirstContentReturnedAtOnce(DefaultMaxRetries, respond, 1, text);
  }

  /** When every attempt fails, the error text is returned after a sleep for each attempt, the last included. */
  lemma ExhaustedAfterEveryAttemptFails(maxRetries: int, respond: nat -> Attempt)
    requires forall i :: 0 <= i < maxRetries ==> Retryable(respond(i))
    ensures SendImageToOpenAI(maxRetries, respond) == Reply(Returned(ExhaustedText), Max0(maxRetries), Max0(maxRetries))
  {
  }

  /** A budget of zero or less makes no attempt and does not raise. */
  lemma NoBudgetNoAttempt(maxRetries: int, respond: nat -> Attempt)
    requires maxRetries <= 0
    ensures SendImageToOpenAI(maxRetries, respond) == Reply(Returned(ExhaustedText), 0, 0)
  {
  }
}
