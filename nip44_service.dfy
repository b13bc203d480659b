/** The broker as the background script runs it: a service that owns the
    permission store and handles one NIP-44 encryption request at a time. */
module Nip44Service {
  import opened Nip44Broker
  import opened Nip44Session

  /** The broker with the permission store it owns. `requests` are the
      requests handled so far, oldest first, and `calls` the foreign calls each
      of them made; `loaded` is the store as it was when the broker was
      created. */
  class Broker {
    var granted: set<Permission>
    ghost var requests: seq<Request>
    ghost var calls: seq<seq<Event>>
    ghost const loaded: set<Permission>

    /** The store and the log are those of running the requests so far from
        the loaded store; every record the broker added came from a prompt
        answer that asked to remember it, and every encryption it ran was
        authorized. */
    ghost predicate Valid()
      reads this
    {
      granted == Run(loaded, requests).granted && calls == Run(loaded, requests).calls &&
      granted == loaded + GrantsOf(calls) &&
      forall i | 0 <= i < |calls| :: Authorized(calls[i]) && GrantsRemembered(calls[i])
    }

    constructor (stored: set<Permission>)
      ensures Valid()
      ensures granted == stored && loaded == stored && requests == [] && calls == []
    {
      granted := stored;
      loaded := stored;
      requests := [];
      calls := [];
    }

    /** Handles one NIP-44 encryption request from `host`. */
    method Nip44EncryptOrPrompt(host: Option<string>, args: Args, fx: Effects) returns (r: Option<Response>)
      requires Valid()
      modifies this
      ensures Valid()
      ensures var o := EncryptOrPrompt(old(granted), host, args, fx);
        r == o.result && granted == o.granted && calls == old(calls) + [o.trace]
      ensures requests == old(requests) + [Request(host, args, fx)]
    {
      ghost var request := Request(host, args, fx);
      ghost var trace: seq<Event> := [];
      if !HasHost(host) {
        r := None;
      } else {
        var outcome: Result<Response>;
        outcome, trace := TryEncryptOrPrompt(host.value, args, fx);
        match outcome {
          case Ok(response) => r := Some(response);
          case Throw(e) =>
            match e {
              case ErrorInstance(m) => r := Some(Error(m));
              case NonError => r := None;
            }
        }
      }
      RunAppend(loaded, requests, request);
      requests := requests + [request];
      calls := calls + [trace];
      RunSafe(loaded, requests);
      RunAccounted(loaded, requests);
    }

    /** The `try` body: checks the store, prompts when needed, records a
        remembered decision, and encrypts or rejects. */
    method TryEncryptOrPrompt(host: string, args: Args, fx: Effects) returns (outcome: Result<Response>, ghost trace: seq<Event>)
      modifies this`granted
      ensures var a := Attempt(old(granted), host, args, fx);
        outcome == a.result && granted == a.granted && trace == a.trace
    {
      var perm := EncryptPermission(host);
      if fx.lookupThrows.Some? {
        trace := [HasPermissionFor(perm, Throw(fx.lookupThrows.value))];
        return Throw(fx.lookupThrows.value), trace;
      }
      var hasPermission := perm in granted;
      trace := [HasPermissionFor(perm, Ok(hasPermission))];
      if hasPermission {
        trace := trace + [Nip44Encrypt(args, fx.encrypt)];
        outcome := Encrypted(fx.encrypt);
        return;
      }
      var request := PromptFor(args);
      trace := trace + [OpenPrompt(request, fx.prompt)];
      if fx.prompt.Throw? {
        return Throw(fx.prompt.thrown), trace;
      }
      var promptResponse := fx.prompt.value;
      if promptResponse.rememberPermission {
        if fx.grantThrows.Some? {
          trace := trace + [AddPermissionFor(perm, Throw(fx.grantThrows.value))];
          return Throw(fx.grantThrows.value), trace;
        }
        granted := granted + {perm};
        trace := trace + [AddPermissionFor(perm, Ok(()))];
      }
      if promptResponse.confirm {
        trace := trace + [Nip44Encrypt(args, fx.encrypt)];
        outcome := Encrypted(fx.encrypt);
      } else {
        outcome := Ok(Error(USER_REJECTED_ERROR));
      }
    }
  }
}
