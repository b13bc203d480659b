/** What one call of the broker promises, case by case. */
module Nip44Properties {
  import opened Nip44Broker

  /** What the foreign call logged in `e` threw, if it threw. */
  function ThrownBy(e: Event): Option<Thrown> {
    match e
    case HasPermissionFor(_, held) => if held.Throw? then Some(held.thrown) else None
    case OpenPrompt(_, reply) => if reply.Throw? then Some(reply.thrown) else None
    case AddPermissionFor(_, added) => if added.Throw? then Some(added.thrown) else None
    case Nip44Encrypt(_, ciphertext) => if ciphertext.Throw? then Some(ciphertext.thrown) else None
  }

  /** Without a host the broker returns nothing and calls nothing: no lookup,
      no prompt, no insert, no encryption. */
  lemma NoHostNoEffects(granted: set<Permission>, host: Option<string>, args: Args, fx: Effects)
    requires !HasHost(host)
    ensures var o := EncryptOrPrompt(granted, host, args, fx);
      o.result == None && o.granted == granted && o.trace == []
  {
  }

  /** With a standing grant and a lookup that returns, the broker encrypts
      exactly once, opens no prompt, leaves the store unchanged, and answers
      `{data: ciphertext}`, or the `catch` mapping of what the encryption threw. */
  lemma StandingGrantEncrypts(granted: set<Permission>, host: string, args: Args, fx: Effects)
    requires host != "" && fx.lookupThrows.None? && EncryptPermission(host) in granted
    ensures var o := EncryptOrPrompt(granted, Some(host), args, fx);
      Encryptions(o.trace) == 1 && Prompts(o.trace) == 0 && o.granted == granted &&
      (fx.encrypt.Ok? ==> o.result == Some(Data(fx.encrypt.value))) &&
      (fx.encrypt.Throw? ==> o.result == Caught(fx.encrypt.thrown))
  {
  }

  /** Without a standing grant, the lookup is followed by exactly one prompt,
      which shows the peer and the plaintext on the confirmation screen, and
      any encryption comes after it. */
  lemma PromptBeforeEncrypt(granted: set<Permission>, host: string, args: Args, fx: Effects)
    requires host != "" && fx.lookupThrows.None? && EncryptPermission(host) !in granted
    ensures var t := EncryptOrPrompt(granted, Some(host), args, fx).trace;
      Prompts(t) == 1 && |t| >= 2 &&
      t[0] == HasPermissionFor(EncryptPermission(host), Ok(false)) &&
      t[1] == OpenPrompt(PromptFor(args), fx.prompt) &&
      forall i | 0 <= i < |t| && t[i].Nip44Encrypt? :: 1 < i
  {
    var t := EncryptOrPrompt(granted, Some(host), args, fx).trace;
    var asked := [HasPermissionFor(EncryptPermission(host), Ok(false)), OpenPrompt(PromptFor(args), fx.prompt)];
    assert t == asked + t[2..];
    CountsAppend(asked, t[2..]);
  }

  /** After the prompt, when the insert returns, the store gains the caller's
      NIP-44 encryption permission if and only if the answer asked to remember
      it, whatever `confirm` was, and nothing else in the store changes. */
  lemma RememberIffRecorded(granted: set<Permission>, host: string, args: Args, fx: Effects, d: Decision)
    requires host != "" && fx.lookupThrows.None? && EncryptPermission(host) !in granted
    requires fx.prompt == Ok(d) && fx.grantThrows.None?
    ensures var o := EncryptOrPrompt(granted, Some(host), args, fx);
      (EncryptPermission(host) in o.granted <==> d.rememberPermission) &&
      o.granted - {EncryptPermission(host)} == granted
  {
  }

  /** The answer `{confirm: false, rememberPermission: true}` records the
      grant and still returns the rejection, without encrypting. */
  lemma RememberedRejectionIsRecorded(granted: set<Permission>, host: string, args: Args, fx: Effects)
    requires host != "" && fx.lookupThrows.None? && EncryptPermission(host) !in granted
    requires fx.prompt == Ok(Decision(false, true)) && fx.grantThrows.None?
    ensures var o := EncryptOrPrompt(granted, Some(host), args, fx);
      o.granted == granted + {EncryptPermission(host)} &&
      o.result == Some(Error(USER_REJECTED_ERROR)) && Encryptions(o.trace) == 0
  {
  }

  /** A declined prompt never encrypts, and answers with the rejection
      sentinel unless recording a remembered decision threw first. */
  lemma DeclinedNeverEncrypts(granted: set<Permission>, host: string, args: Args, fx: Effects)
    requires host != "" && fx.lookupThrows.None? && EncryptPermission(host) !in granted
    requires fx.prompt.Ok? && !fx.prompt.value.confirm
    ensures var o := EncryptOrPrompt(granted, Some(host), args, fx);
      Encryptions(o.trace) == 0 &&
      (!(fx.prompt.value.rememberPermission && fx.grantThrows.Some?) ==> o.result == Some(Error(USER_REJECTED_ERROR)))
  {
  }

  /** A confirmed prompt encrypts exactly once, unless recording a remembered
      decision threw first, and answers with the encryption's outcome. */
  lemma ConfirmedEncryptsOnce(granted: set<Permission>, host: string, args: Args, fx: Effects)
    requires host != "" && fx.lookupThrows.None? && EncryptPermission(host) !in granted
    requires fx.prompt.Ok? && fx.prompt.value.confirm
    requires !(fx.prompt.value.rememberPermission && fx.grantThrows.Some?)
    ensures var o := EncryptOrPrompt(granted, Some(host), args, fx);
      Encryptions(o.trace) == 1 &&
      (fx.encrypt.Ok? ==> o.result == Some(Data(fx.encrypt.value))) &&
      (fx.encrypt.Throw? ==> o.result == Caught(fx.encrypt.thrown))
  {
    var o := EncryptOrPrompt(granted, Some(host), args, fx);
    CountsAppend(o.trace[..|o.trace| - 1], [o.trace[|o.trace| - 1]]);
    assert o.trace == o.trace[..|o.trace| - 1] + [o.trace[|o.trace| - 1]];
  }

  /** Encryption runs only for a caller with a host whose lookup returned, and
      only when the permission was already held or the prompt was confirmed. */
  lemma EncryptionNeedsAuthorization(granted: set<Permission>, host: Option<string>, args: Args, fx: Effects)
    requires Encryptions(EncryptOrPrompt(granted, host, args, fx).trace) > 0
    ensures HasHost(host) && fx.lookupThrows.None?
    ensures EncryptPermission(host.value) in granted || (fx.prompt.Ok? && fx.prompt.value.confirm)
  {
    var t := EncryptOrPrompt(granted, host, args, fx).trace;
    var i :| 0 <= i < |t| && t[i].Nip44Encrypt?;
    var j :| 0 <= j < i && Authorizes(t[j]);
  }

  /** If the lookup throws, the store is unchanged and nothing is prompted,
      inserted or encrypted; the response is the `catch` mapping of the throw. */
  lemma LookupThrowsNoEffect(granted: set<Permission>, host: string, args: Args, fx: Effects)
    requires host != "" && fx.lookupThrows.Some?
    ensures var o := EncryptOrPrompt(granted, Some(host), args, fx);
      o.granted == granted && o.result == Caught(fx.lookupThrows.value) &&
      o.trace == [HasPermissionFor(EncryptPermission(host), Throw(fx.lookupThrows.value))]
  {
  }

  /** If recording a remembered decision throws, nothing is encrypted, the
      store is unchanged, and the response is the `catch` mapping of the throw,
      even for a confirmed prompt. */
  lemma GrantThrowsNoEncrypt(granted: set<Permission>, host: string, args: Args, fx: Effects)
    requires host != "" && fx.lookupThrows.None? && EncryptPermission(host) !in granted
    requires fx.prompt.Ok? && fx.prompt.value.rememberPermission && fx.grantThrows.Some?
    ensures var o := EncryptOrPrompt(granted, Some(host), args, fx);
      Encryptions(o.trace) == 0 && o.granted == granted && o.result == Caught(fx.grantThrows.value)
  {
  }

  /** A foreign call that throws is the last call the broker makes, and the
      response is the `catch` mapping of what it threw: `{error: message}` for
      an `Error`, nothing otherwise. */
  lemma ThrowEndsTheCall(granted: set<Permission>, host: Option<string>, args: Args, fx: Effects, i: nat)
    requires var t := EncryptOrPrompt(granted, host, args, fx).trace; i < |t| && ThrownBy(t[i]).Some?
    ensures var o := EncryptOrPrompt(granted, host, args, fx);
      i == |o.trace| - 1 && o.result == Caught(ThrownBy(o.trace[i]).value)
  {
    var t := EncryptOrPrompt(granted, host, args, fx).trace;
    var perm := EncryptPermission(host.value);
    if fx.lookupThrows.None? {
      assert ThrownBy(t[0]).None?;
      if perm !in granted && fx.prompt.Ok? {
        var d := fx.prompt.value;
        assert ThrownBy(t[1]).None?;
        if !(d.rememberPermission && fx.grantThrows.Some?) && d.rememberPermission {
          assert ThrownBy(t[2]).None?;
        }
      }
    }
  }

  /** Where a response comes from: `{data}` is a ciphertext the encryption
      returned; `{error}` is the rejection sentinel after a declined prompt or
      the message of an `Error` a call threw; no response means there was no
      host or a call threw something that is not an `Error`. */
  lemma ResponseProvenance(granted: set<Permission>, host: Option<string>, args: Args, fx: Effects)
    ensures var o := EncryptOrPrompt(granted, host, args, fx);
      (o.result.Some? && o.result.value.Data? ==>
        Nip44Encrypt(args, Ok(o.result.value.data)) in o.trace) &&
      (o.result.Some? && o.result.value.Error? ==>
        (o.result.value.error == USER_REJECTED_ERROR &&
         exists e | e in o.trace :: e.OpenPrompt? && e.reply.Ok? && !e.reply.value.confirm) ||
        exists e | e in o.trace :: ThrownBy(e) == Some(ErrorInstance(o.result.value.error))) &&
      (o.result.None? ==> !HasHost(host) || exists e | e in o.trace :: ThrownBy(e) == Some(NonError))
  {
    var o := EncryptOrPrompt(granted, host, args, fx);
    if o.trace != [] && ThrownBy(o.trace[|o.trace| - 1]).Some? {
      assert o.trace[|o.trace| - 1] in o.trace;
    }
    if |o.trace| >= 2 && o.trace[1].OpenPrompt? {
      assert o.trace[1] in o.trace;
    }
  }

  /** The prompt shows what is then encrypted: whenever a call both prompts
      and encrypts, the prompt opened the confirmation screen with the peer and
      the plaintext that the encryption is given. */
  lemma PromptShowsWhatIsEncrypted(granted: set<Permission>, host: Option<string>, args: Args, fx: Effects)
    ensures var t := EncryptOrPrompt(granted, host, args, fx).trace;
      forall i, j | 0 <= j < i < |t| && t[j].OpenPrompt? && t[i].Nip44Encrypt? ::
        t[j].request.action == CONFIRM_ACTION &&
        t[j].request.encryptOrDecrypt.action == "encrypt" &&
        t[j].request.encryptOrDecrypt.peer == t[i].args.peer &&
        t[j].request.encryptOrDecrypt.message == t[i].args.plaintext
  {
  }
}
