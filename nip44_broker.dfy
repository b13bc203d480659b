/** Model of the authorization broker for NIP-44 encryption requests
    (`nip44EncryptOrPrompt`): derive the caller's host, consult the permission
    store, prompt the user when no standing grant exists, record the grant when
    the user asks to remember it, and only then run the encryption capability.

    Every foreign call the broker makes (permission lookup, prompt, permission
    insert, encryption) is logged as an `Event` that carries the answer the
    call gave, so that the safety properties can be stated over the log. */
module Nip44Broker {

  datatype Option<T> = None | Some(value: T)

  /** A value thrown by a foreign call: an `Error` instance, which carries a
      message, or anything else. */
  datatype Thrown = ErrorInstance(message: string) | NonError

  /** What an awaited foreign call does: return a value or throw. */
  datatype Result<T> = Ok(value: T) | Throw(thrown: Thrown)

  /** The permission methods of the Nostr provider. Only the NIP-44 encryption
      method is used by this broker; the others stand for the rest of the
      store's contents, which the broker must leave alone. */
  datatype PermissionMethod = NostrNip44Encrypt | OtherMethod(name: string)

  /** One record of the permission store: method `kind` is granted to `host`. */
  datatype Permission = Permission(kind: PermissionMethod, host: string)

  /** The arguments of a NIP-44 encryption request. */
  datatype Args = Args(peer: string, plaintext: string, v: int)

  /** The user's answer to the prompt. */
  datatype Decision = Decision(confirm: bool, rememberPermission: bool)

  /** What the prompt shows: the confirmation screen and what it asks about. */
  datatype EncryptOrDecrypt = EncryptOrDecrypt(action: string, peer: string, message: string)
  datatype PromptRequest = PromptRequest(action: string, encryptOrDecrypt: EncryptOrDecrypt)

  /** The response envelope: exactly one of `data` and `error`. */
  datatype Response = Data(data: string) | Error(error: string)

  /** The sentinel error returned when the user declines. */
  const USER_REJECTED_ERROR: string := "User rejected"

  /** The screen the prompt opens. */
  const CONFIRM_ACTION: string := "public/nostr/confirmEncryptOrDecrypt"

  /** The answers the foreign calls of one request give.
      `lookupThrows` and `grantThrows` are `Some` when `hasPermissionFor` or
      `addPermissionFor` throws; when the lookup returns, its answer is read
      from the permission set itself. `encrypt` covers fetching the Nostr
      signer and its `nip44Encrypt`. */
  datatype Effects = Effects(
    lookupThrows: Option<Thrown>,
    prompt: Result<Decision>,
    grantThrows: Option<Thrown>,
    encrypt: Result<string>)

  /** One foreign call made by the broker, with the answer it gave. */
  datatype Event =
    | HasPermissionFor(perm: Permission, held: Result<bool>)
    | OpenPrompt(request: PromptRequest, reply: Result<Decision>)
    | AddPermissionFor(perm: Permission, added: Result<()>)
    | Nip44Encrypt(args: Args, ciphertext: Result<string>)

  /** The result of one step, the permission set after it, and the calls it made. */
  datatype Step<T> = Step(result: T, granted: set<Permission>, trace: seq<Event>)

  // ---------------------------------------------------------------------------
  // Properties of a log of foreign calls

  /** An event that authorizes encryption: a lookup that found a standing grant
      or a prompt the user confirmed. */
  predicate Authorizes(e: Event) {
    (e.HasPermissionFor? && e.held == Ok(true)) ||
    (e.OpenPrompt? && e.reply.Ok? && e.reply.value.confirm)
  }

  /** Every encryption in `t` comes after an authorizing event. */
  predicate Authorized(t: seq<Event>) {
    forall i | 0 <= i < |t| && t[i].Nip44Encrypt? :: exists j | 0 <= j < i :: Authorizes(t[j])
  }

  /** An event in which the user asked for the decision to be remembered. */
  predicate AsksToRemember(e: Event) {
    e.OpenPrompt? && e.reply.Ok? && e.reply.value.rememberPermission
  }

  /** Every insert into the permission store in `t` comes after a prompt whose
      answer asked to remember the decision. */
  predicate GrantsRemembered(t: seq<Event>) {
    forall i | 0 <= i < |t| && t[i].AddPermissionFor? :: exists j | 0 <= j < i :: AsksToRemember(t[j])
  }

  /** The permissions that `t` inserted successfully. */
  function GrantsIn(t: seq<Event>): set<Permission> {
    set e | e in t && e.AddPermissionFor? && e.added == Ok(()) :: e.perm
  }

  /** The number of encryptions in `t`. */
  function Encryptions(t: seq<Event>): (n: nat)
    ensures n <= |t|
    ensures n == 0 <==> forall i | 0 <= i < |t| :: !t[i].Nip44Encrypt?
  {
    if t == [] then 0 else Encryptions(t[1..]) + (if t[0].Nip44Encrypt? then 1 else 0)
  }

  /** The number of prompts in `t`. */
  function Prompts(t: seq<Event>): (n: nat)
    ensures n <= |t|
    ensures n == 0 <==> forall i | 0 <= i < |t| :: !t[i].OpenPrompt?
  {
    if t == [] then 0 else Prompts(t[1..]) + (if t[0].OpenPrompt? then 1 else 0)
  }

  /** Counting distributes over concatenation of logs. */
  lemma {:induction false} CountsAppend(s: seq<Event>, t: seq<Event>)
    ensures Encryptions(s + t) == Encryptions(s) + Encryptions(t)
    ensures Prompts(s + t) == Prompts(s) + Prompts(t)
  {
    if s == [] {
      assert s + t == t;
    } else {
      assert (s + t)[0] == s[0] && (s + t)[1..] == s[1..] + t;
      CountsAppend(s[1..], t);
    }
  }

  // ---------------------------------------------------------------------------
  // The broker as a function of the permission set and the foreign answers

  /** The caller has a host: `getHostFromSender` gave a value that is not falsy. */
  predicate HasHost(host: Option<string>) {
    host.Some? && host.value != ""
  }

  /** The permission the broker checks and records for `host`. */
  function EncryptPermission(host: string): Permission {
    Permission(NostrNip44Encrypt, host)
  }

  /** The prompt opened for `args`: the confirmation screen, asking to encrypt
      the plaintext for the peer. */
  function PromptFor(args: Args): (req: PromptRequest)
    ensures req.action == CONFIRM_ACTION
    ensures req.encryptOrDecrypt.peer == args.peer && req.encryptOrDecrypt.message == args.plaintext
  {
    PromptRequest(CONFIRM_ACTION, EncryptOrDecrypt("encrypt", args.peer, args.plaintext))
  }

  /** The `catch` clause: an `Error` becomes `{error: message}`, anything else
      makes the broker return nothing. */
  function Caught(e: Thrown): Option<Response> {
    match e
    case ErrorInstance(m) => Some(Error(m))
    case NonError => None
  }

  /** The body of the `try`: returns the response, or what was thrown. */
  function Attempt(granted: set<Permission>, host: string, args: Args, fx: Effects): Step<Result<Response>> {
    var perm := EncryptPermission(host);
    match fx.lookupThrows
    case Some(e) => Step(Throw(e), granted, [HasPermissionFor(perm, Throw(e))])
    case None =>
      if perm in granted then
        Step(Encrypted(fx.encrypt), granted, [HasPermissionFor(perm, Ok(true)), Nip44Encrypt(args, fx.encrypt)])
      else
        var asked := [HasPermissionFor(perm, Ok(false)), OpenPrompt(PromptFor(args), fx.prompt)];
        match fx.prompt
        case Throw(e) => Step(Throw(e), granted, asked)
        case Ok(d) =>
          if d.rememberPermission && fx.grantThrows.Some? then
            Step(Throw(fx.grantThrows.value), granted, asked + [AddPermissionFor(perm, Throw(fx.grantThrows.value))])
          else
            var recorded := asked + (if d.rememberPermission then [AddPermissionFor(perm, Ok(()))] else []);
            var granted' := if d.rememberPermission then granted + {perm} else granted;
            if d.confirm then
              Step(Encrypted(fx.encrypt), granted', recorded + [Nip44Encrypt(args, fx.encrypt)])
            else
              Step(Ok(Error(USER_REJECTED_ERROR)), granted', recorded)
  }

  /** Whatever the foreign calls answer, the `try` body encrypts only after a
      standing grant or a confirmation, and inserts a permission only after a
      prompt whose answer asked to remember it. */
  lemma AttemptAuthorized(granted: set<Permission>, host: string, args: Args, fx: Effects)
    ensures Authorized(Attempt(granted, host, args, fx).trace)
    ensures GrantsRemembered(Attempt(granted, host, args, fx).trace)
  {
    var perm := EncryptPermission(host);
    var t := Attempt(granted, host, args, fx).trace;
    if fx.lookupThrows.None? {
      if perm in granted {
        assert Authorizes(t[0]);
      } else if fx.prompt.Ok? {
        var d := fx.prompt.value;
        if d.rememberPermission {
          assert AsksToRemember(t[1]);
        }
        if d.confirm && !(d.rememberPermission && fx.grantThrows.Some?) {
          assert Authorizes(t[1]);
        }
      }
    }
  }

  /** The `try` body changes the store only by what it inserts, and inserts
      nothing but the caller's NIP-44 encryption permission. */
  lemma AttemptStore(granted: set<Permission>, host: string, args: Args, fx: Effects)
    ensures var a := Attempt(granted, host, args, fx);
      a.granted == granted + GrantsIn(a.trace) && GrantsIn(a.trace) <= {EncryptPermission(host)}
  {
    var perm := EncryptPermission(host);
    var a := Attempt(granted, host, args, fx);
    if fx.lookupThrows.None? && perm !in granted && fx.prompt.Ok? {
      var d := fx.prompt.value;
      if d.rememberPermission && fx.grantThrows.None? {
        assert AddPermissionFor(perm, Ok(())) in a.trace;
      }
    }
  }

  /** The `try` body opens at most one prompt and runs encryption at most once. */
  lemma AttemptCounts(granted: set<Permission>, host: string, args: Args, fx: Effects)
    ensures Encryptions(Attempt(granted, host, args, fx).trace) <= 1
    ensures Prompts(Attempt(granted, host, args, fx).trace) <= 1
  {
    var perm := EncryptPermission(host);
    var t := Attempt(granted, host, args, fx).trace;
    if fx.lookupThrows.None? && perm !in granted && fx.prompt.Ok? {
      var d := fx.prompt.value;
      var asked := [HasPermissionFor(perm, Ok(false)), OpenPrompt(PromptFor(args), fx.prompt)];
      assert Encryptions(asked) == 0 && Prompts(asked) == 1;
      CountsAppend(asked, t[2..]);
      assert t == asked + t[2..];
    }
  }

  /** What the `try` body makes of the encryption's outcome: `{data: ciphertext}`
      or the thrown value, passed on to the `catch`. */
  function Encrypted(ciphertext: Result<string>): Result<Response> {
    match ciphertext
    case Ok(c) => Ok(Data(c))
    case Throw(e) => Throw(e)
  }

  /** The whole broker: no host means no response and no effect; otherwise the
      `try` body runs and a throw is mapped by the `catch` clause. */
  function EncryptOrPrompt(granted: set<Permission>, host: Option<string>, args: Args, fx: Effects): Step<Option<Response>> {
    if !HasHost(host) then Step(None, granted, [])
    else
      var a := Attempt(granted, host.value, args, fx);
      var response := match a.result
        case Ok(r) => Some(r)
        case Throw(e) => Caught(e);
      Step(response, a.granted, a.trace)
  }

  /** For every permission set, host and foreign answer, one call of the
      broker encrypts only when authorized, inserts only after a remember
      answer, changes the store by exactly the caller's NIP-44 permission it
      inserted, and prompts and encrypts at most once. */
  lemma EncryptOrPromptSafe(granted: set<Permission>, host: Option<string>, args: Args, fx: Effects)
    ensures var o := EncryptOrPrompt(granted, host, args, fx);
      Authorized(o.trace) && GrantsRemembered(o.trace) &&
      o.granted == granted + GrantsIn(o.trace) &&
      GrantsIn(o.trace) <= (if HasHost(host) then {EncryptPermission(host.value)} else {}) &&
      Encryptions(o.trace) <= 1 && Prompts(o.trace) <= 1
  {
    if HasHost(host) {
      AttemptAuthorized(granted, host.value, args, fx);
      AttemptStore(granted, host.value, args, fx);
      AttemptCounts(granted, host.value, args, fx);
    }
  }
}
