/**
 The handler of a promotion event: started and finished events around a counted retry of the stage update
 (promotion-service/eventhandler/eventhandlers.go:26-95).
 */
module PromotionHandler {
  import opened Wrappers
  import opened ReleaseTag

  datatype Cause = NoVersion | NoCredentials | UpdateFailed

  datatype Event = Started | Passed | Errored(cause: Cause)

  /** Which calls work; `updates(i)` is whether the attempt number `i` at the stage update succeeds. */
  datatype Env = Env(parses: bool, startedWorks: bool, credentials: bool, updates: nat -> bool, finishedWorks: bool)

  /** `Panicked`: the error of the last attempt is dereferenced although that attempt succeeded. */
  datatype Outcome = Succeeded | Failed | Panicked

  const RETRIES := 6

  /** The handler gets as far as the first attempt. */
  predicate ReachesUpdate(env: Env, service: string, labels: Labels) {
    env.parses && env.startedWorks && ClonedTag(service, labels).Some? && env.credentials
  }

  predicate RetrySucceeds(env: Env) {
    !env.updates(0) && exists i: nat :: 1 <= i <= RETRIES && env.updates(i)
  }

  /** Attempt `n` is the first that succeeds, and one of the first seven. */
  predicate FirstSuccess(env: Env, n: int) {
    0 <= n <= 6 && env.updates(n) && forall i :: 0 <= i < n ==> !env.updates(i)
  }

  /** The events that get out, in order. */
  function Answer(env: Env, service: string, labels: Labels): seq<Event> {
    if !env.parses || !env.startedWorks then []
    else
      var finished :=
        if ClonedTag(service, labels) == None then [Errored(NoVersion)]
        else if !env.credentials then [Errored(NoCredentials)]
        else if env.updates(0) then [Passed]
        else if RetrySucceeds(env) then []
        else [Errored(UpdateFailed)];
      [Started] + if env.finishedWorks then finished else []
  }

  class Handler {
    var sent: seq<Event>
    /** The tag each attempt cloned and whether it pushed. */
    var attempts: seq<(string, bool)>

    constructor ()
      ensures sent == [] && attempts == []
    {
      sent, attempts := [], [];
    }

    method SendFinished(e: Event, works: bool) returns (ok: bool)
      modifies this`sent
      ensures ok == works && sent == if works then old(sent) + [e] else old(sent)
    {
      ok := works;
      if works {
        sent := sent + [e];
      }
    }

    method Update(tag: string, env: Env, n: nat) returns (ok: bool)
      modifies this`attempts
      ensures ok == env.updates(n) && attempts == old(attempts) + [(tag, ok)]
    {
      ok := env.updates(n);
      attempts := attempts + [(tag, ok)];
    }

    /** The attempts at the stage update: a first one and at most six more, until one succeeds. */
    method Attempt(tag: string, env: Env) returns (ok: bool, retried: bool)
      modifies this`attempts
      ensures retried == !env.updates(0) && (!retried ==> ok)
      ensures retried ==> (ok <==> RetrySucceeds(env))
      ensures old(attempts) < attempts && |attempts| <= |old(attempts)| + 1 + RETRIES
      ensures forall i :: |old(attempts)| <= i < |attempts| ==> attempts[i] == (tag, ok && i == |attempts| - 1)
      ensures !ok ==> |attempts| == |old(attempts)| + 7 && forall i :: 0 <= i <= 6 ==> !env.updates(i)
      ensures ok ==> FirstSuccess(env, |attempts| - |old(attempts)| - 1)
    {
      ok := Update(tag, env, 0);
      retried := !ok;
      var count := 0;
      while !ok && count <= RETRIES - 1
        invariant count <= RETRIES && |attempts| == |old(attempts)| + 1 + count && old(attempts) < attempts
        invariant retried == !env.updates(0) && (!retried ==> ok && count == 0)
        invariant retried ==> forall i :: 1 <= i <= count ==> env.updates(i) == (ok && i == count)
        invariant retried && ok ==> 1 <= count
        invariant forall i :: |old(attempts)| <= i < |attempts| ==> attempts[i] == (tag, ok && i == |attempts| - 1)
        decreases RETRIES - count
      {
        ok := Update(tag, env, count + 1);
        count := count + 1;
      }
      assert retried && ok ==> env.updates(count);
    }

    /** `HandlePromotionTriggeredEvent`. */
    method Handle(service: string, labels: Labels, env: Env) returns (out: Outcome)
      modifies this
      ensures sent == old(sent) + Answer(env, service, labels)
      ensures out == Panicked <==> ReachesUpdate(env, service, labels) && RetrySucceeds(env)
      ensures out == Succeeded <==> ReachesUpdate(env, service, labels) && env.updates(0) && env.finishedWorks
      // Only the named release is cloned, at most seven times, and at most the last attempt pushed.
      ensures old(attempts) <= attempts && |attempts| <= |old(attempts)| + 1 + RETRIES
      ensures attempts != old(attempts) <==> ReachesUpdate(env, service, labels)
      ensures forall i :: |old(attempts)| <= i < |attempts| ==>
        Some(attempts[i].0) == ClonedTag(service, labels) && (attempts[i].1 ==> i == |attempts| - 1)
    {
      if !env.parses || !env.startedWorks {
        return Failed;
      }
      sent := sent + [Started];
      if VERSION !in labels {
        var _ := SendFinished(Errored(NoVersion), env.finishedWorks);
        return Failed;
      }
      var configVersion := if CONFIG_VERSION in labels then labels[CONFIG_VERSION] else "0";
      if !env.credentials {
        var _ := SendFinished(Errored(NoCredentials), env.finishedWorks);
        return Failed;
      }
      var ok, retried := Attempt(Tag(service, labels[VERSION], configVersion), env);
      if retried {
        if ok {
          return Panicked;
        }
        var _ := SendFinished(Errored(UpdateFailed), env.finishedWorks);
        return Failed;
      }
      var told := SendFinished(Passed, env.finishedWorks);
      out := if told then Succeeded else Failed;
    }
  }

  /** Every started event is answered by exactly one finished event, unless it cannot be sent or a retry succeeds. */
  lemma AnsweredExactly(env: Env, service: string, labels: Labels)
    requires env.parses && env.startedWorks
    ensures |Answer(env, service, labels)| == 2 <==>
            env.finishedWorks && !(ReachesUpdate(env, service, labels) && RetrySucceeds(env))
    ensures |Answer(env, service, labels)| <= 2 && Answer(env, service, labels)[0] == Started
    ensures Passed in Answer(env, service, labels) <==>
            ReachesUpdate(env, service, labels) && env.updates(0) && env.finishedWorks
  {}

  /**
   A finished event names the first thing that went wrong: the version label, the credentials, or all seven attempts at
   the update.
   */
  lemma ErrorNamesCause(env: Env, service: string, labels: Labels)
    ensures var sent := Answer(env, service, labels);
      var started := env.parses && env.startedWorks && env.finishedWorks;
      && (Errored(NoVersion) in sent <==> started && "version" !in labels)
      && (Errored(NoCredentials) in sent <==> started && "version" in labels && !env.credentials)
      && (Errored(UpdateFailed) in sent <==>
            started && "version" in labels && env.credentials && forall i :: 0 <= i <= 6 ==> !env.updates(i))
  {
    if forall i :: 0 <= i <= 6 ==> !env.updates(i) {
      assert !env.updates(0) && !RetrySucceeds(env);
    } else {
      var i :| 0 <= i <= 6 && env.updates(i);
      assert env.updates(0) || RetrySucceeds(env);
    }
  }

  /** Nothing is sent for an event that does not parse, or whose start cannot be told. */
  lemma SilentExactly(env: Env, service: string, labels: Labels)
    ensures Answer(env, service, labels) == [] <==> !env.parses || !env.startedWorks
  {}
}
