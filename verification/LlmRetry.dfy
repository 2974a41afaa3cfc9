/** The structured-output call: post, validate, and on a failed validation post
    again with the reply and the complaint appended. */
module LlmRetry {
  import opened Wrappers

  /** One post to the model: a transport or response failure, or a body that may
      not even parse into the output type. */
  datatype Post<+T> = Failed | Content(body: Option<T>)

  datatype LlmError = TransportError | ValidationError

  /** The value an attempt yields when its reply validates. */
  function Accepted<T>(post: Post<T>, validate: T -> Option<T>): Option<T> {
    if post.Content? && post.body.Some? then validate(post.body.value) else None
  }

  /** The call's result, with posts[i] standing for what attempt i would meet. */
  function Outcome<T>(posts: seq<Post<T>>, attempts: nat, validate: T -> Option<T>): Result<T, LlmError> {
    if attempts == 0 then Err(ValidationError)
    else if posts == [] || posts[0].Failed? then Err(TransportError)
    else if Accepted(posts[0], validate).Some? then Ok(Accepted(posts[0], validate).value)
    else Outcome(posts[1..], attempts - 1, validate)
  }

  /** The posts before i came back and were all refused by the validator. */
  ghost predicate RefusedBefore<T>(posts: seq<Post<T>>, validate: T -> Option<T>, i: nat) {
    i <= |posts| && forall j :: 0 <= j < i ==> posts[j].Content? && Accepted(posts[j], validate).None?
  }

  ghost predicate FirstAcceptedAt<T>(posts: seq<Post<T>>, validate: T -> Option<T>, i: nat, v: T) {
    i < |posts| && RefusedBefore(posts, validate, i) && Accepted(posts[i], validate) == Some(v)
  }

  /** A value is returned exactly when some attempt within the limit is the first
      whose reply validates, every earlier one having been refused; so an accepted
      value always passed the validator. */
  lemma {:induction false} OutcomeMeaning<T(!new)>(posts: seq<Post<T>>, attempts: nat, validate: T -> Option<T>)
    ensures forall v :: Outcome(posts, attempts, validate) == Ok(v) <==>
              exists i: nat :: i < attempts && FirstAcceptedAt(posts, validate, i, v)
    ensures Outcome(posts, attempts, validate) == Err(ValidationError) <==> RefusedBefore(posts, validate, attempts)
    decreases attempts
  {
    if attempts > 0 && posts != [] && posts[0].Content? && Accepted(posts[0], validate).None? {
      var rest := posts[1..];
      OutcomeMeaning(rest, attempts - 1, validate);
      forall v
        ensures Outcome(posts, attempts, validate) == Ok(v) <==>
                  exists i: nat :: i < attempts && FirstAcceptedAt(posts, validate, i, v)
      {
        if i: nat :| i < attempts - 1 && FirstAcceptedAt(rest, validate, i, v) {
          assert FirstAcceptedAt(posts, validate, i + 1, v) by {
            assert forall j :: 0 < j < i + 1 ==> posts[j] == rest[j - 1];
          }
        }
        if i: nat :| i < attempts && FirstAcceptedAt(posts, validate, i, v) {
          assert i > 0;
          assert FirstAcceptedAt(rest, validate, i - 1, v);
        }
      }
      if RefusedBefore(rest, validate, attempts - 1) {
        assert forall j :: 0 < j < attempts ==> posts[j] == rest[j - 1];
      }
      if RefusedBefore(posts, validate, attempts) {
        assert forall j :: 0 <= j < attempts - 1 ==> rest[j] == posts[j + 1];
      }
    } else if attempts > 0 && posts != [] && Accepted(posts[0], validate).Some? {
      assert FirstAcceptedAt(posts, validate, 0, Accepted(posts[0], validate).value);
    }
  }

  /** The loop itself. `calls` counts posts; the conversation grows by the reply and
      the complaint after each refusal but the last. */
  method CompleteJson<T>(posts: seq<Post<T>>, attempts: nat, validate: T -> Option<T>)
    returns (r: Result<T, LlmError>, calls: nat, messages: nat)
    ensures r == Outcome(posts, attempts, validate)
    ensures calls <= attempts && (attempts > 0 ==> calls > 0)
    ensures r.Ok? ==> messages == 2 + 2 * (calls - 1)
  {
    calls, messages := 0, 2;
    for attempt := 1 to attempts + 1
      invariant calls == attempt - 1 && calls <= |posts|
      invariant Outcome(posts[calls..], attempts - calls, validate) == Outcome(posts, attempts, validate)
      invariant messages == if calls < attempts || attempts == 0 then 2 + 2 * calls else 2 * calls
    {
      ghost var left := posts[calls..];
      if calls == |posts| || posts[calls].Failed? {
        calls := calls + 1;
        return Err(TransportError), calls, messages;
      }
      assert left[0] == posts[calls] && left[1..] == posts[calls + 1..];
      var accepted := Accepted(posts[calls], validate);
      calls := calls + 1;
      if accepted.Some? {
        return Ok(accepted.value), calls, messages;
      }
      if attempt < attempts {
        messages := messages + 2;
      }
    }
    r := Err(ValidationError);
  }
}
