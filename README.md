# NIP-44 encryption broker, modelled in Dafny

This project models the authorization broker that the browser extension's
background script runs when a web page asks it to NIP-44-encrypt a message
(`nip44EncryptOrPrompt`). The broker works in this order:

1. It derives the caller's host and stops without a response when there is none.
2. It asks the permission store whether the host holds the
   `NOSTR_NIP44ENCRYPT` permission.
3. If it does, the broker encrypts and answers `{data}`.
4. Otherwise it opens one confirmation prompt. When the answer asks to
   remember the decision, the broker records the permission.
5. It then encrypts or answers with the `USER_REJECTED_ERROR` sentinel.
6. Anything thrown on the way becomes `{error: message}`. A thrown value that
   is not an `Error` gives no response.

Files:

- `nip44_broker.dfy` (module `Nip44Broker`): the data model. It holds the
  permissions, the prompt's decision, the response envelope, and the `Effects`
  record of what each foreign call answers. Every foreign call the broker
  makes is logged as an `Event` that carries its answer. The module also holds:
  - the log predicates `Authorized` (every encryption comes after a standing
    grant or a confirmation) and `GrantsRemembered` (every insert comes after a
    prompt answer that asked to remember);
  - the broker as a function of the permission set (`Attempt` for the `try`
    body, `EncryptOrPrompt` for the whole call);
  - the lemmas that every call keeps the log predicates.
- `nip44_service.dfy` (module `Nip44Service`): the class `Broker`. It owns the
  permission set as a field and keeps a ghost log of the requests it handled
  and the calls each one made. Its method `Nip44EncryptOrPrompt` is written step
  by step like the source. It is proved to compute the result and the store
  that `EncryptOrPrompt` gives. Its object invariant ties the store and the log
  to `Run`, the session function below.
- `nip44_session.dfy` (module `Nip44Session`): the broker over successive
  requests, where the permission store is the state shared between them.
  Its lemmas cover three things:
  - records persist and the store grows only by the broker's inserts;
  - every request of a run is authorized;
  - a standing or remembered grant is never prompted again, while a
    confirmation that is not remembered is asked again.
- `nip44_properties.dfy` (module `Nip44Properties`): what one call promises,
  case by case.

Three behaviours of the code are worth knowing, and the model keeps them:

- The permission is recorded whenever the answer has `rememberPermission` set,
  even when `confirm` is false. Such an answer records the grant and still
  returns the rejection (`RememberedRejectionIsRecorded`). One might expect a
  record only for an approved decision.
- A thrown value that is not an `Error` makes the broker return nothing, so not
  every request gets a response.
- The rejection sentinel is an ordinary error string. A foreign `Error` whose
  message is the same string cannot be told apart from it.

## Model

| member | source | states |
|---|---|---|
| `Nip44Broker.EncryptOrPromptSafe` | src/extension/background-script/actions/nostr/nip44EncryptOrPrompt.ts:11-72 | For every permission set, host and foreign answer: every encryption in the call's log comes after a standing grant or a confirmation; every insert comes after a prompt that asked to remember; the store changes by exactly the inserted permissions, which can only be this host's NIP-44 encryption permission; at most one prompt and one encryption |
| `Nip44Broker.AttemptAuthorized` | src/extension/background-script/actions/nostr/nip44EncryptOrPrompt.ts:18-65 | The `try` body encrypts only after a lookup that found the grant or a confirmed prompt, and inserts only after a prompt answer that asked to remember |
| `Nip44Broker.AttemptStore` | src/extension/background-script/actions/nostr/nip44EncryptOrPrompt.ts:47-53 | The `try` body's new store is the old store plus the permissions it inserted successfully, and it inserts nothing but `(NOSTR_NIP44ENCRYPT, host)` |
| `Nip44Broker.AttemptCounts` | src/extension/background-script/actions/nostr/nip44EncryptOrPrompt.ts:24-61 | The `try` body opens at most one prompt and encrypts at most once |
| `Nip44Properties.PromptShowsWhatIsEncrypted` | src/extension/background-script/actions/nostr/nip44EncryptOrPrompt.ts:32-61 | Whenever a call prompts and then encrypts, the prompt opened the confirmation screen for an `encrypt` action showing exactly the peer and plaintext that the encryption is given |
| `Nip44Service.Broker.Nip44EncryptOrPrompt` | src/extension/background-script/actions/nostr/nip44EncryptOrPrompt.ts:11-72 | The stateful handler returns what `EncryptOrPrompt` returns and leaves the store it gives. It appends this request and its log to the history and keeps the invariant: the store is the loaded store plus the remembered grants, and every logged encryption was authorized |
| `Nip44Service.Broker.TryEncryptOrPrompt` | src/extension/background-script/actions/nostr/nip44EncryptOrPrompt.ts:18-65 | The step-by-step `try` body (lookup, prompt, remember, confirm or reject) computes exactly the outcome, store and log of `Attempt` |
| `Nip44Session.Run` | src/extension/background-script/actions/nostr/nip44EncryptOrPrompt.ts:19-22 | Over successive requests there is one response and one log per request, and no record of the initial store is ever lost |
| `Nip44Session.RunAppend` | src/extension/background-script/actions/nostr/nip44EncryptOrPrompt.ts:18-53 | Handling one more request extends the run by that request's response and log, computed against the store the earlier requests left |
| `Nip44Session.RunCall` | src/extension/background-script/actions/nostr/nip44EncryptOrPrompt.ts:19-22 | Each request of a run is handled against the store exactly as the earlier requests left it |
| `Nip44Session.RunMonotone` | src/extension/background-script/actions/nostr/nip44EncryptOrPrompt.ts:48-53 | Records persist: the store after `i` requests is contained in the store after any later point of the run |
| `Nip44Session.RunAccounted` | src/extension/background-script/actions/nostr/nip44EncryptOrPrompt.ts:47-53 | After a run, the store is the initial store plus exactly the permissions the broker inserted |
| `Nip44Session.RunSafe` | src/extension/background-script/actions/nostr/nip44EncryptOrPrompt.ts:24-61 | Every request of a run encrypts at most once and only when authorized, prompts at most once, and inserts only after a remember answer |
| `Nip44Session.StandingGrantIsNotPromptedAgain` | src/extension/background-script/actions/nostr/nip44EncryptOrPrompt.ts:19-30 | Once a host holds the grant, every later request from it whose lookup returns is encrypted once and never prompted |
| `Nip44Session.RememberedDecisionIsNotPromptedAgain` | src/extension/background-script/actions/nostr/nip44EncryptOrPrompt.ts:47-53 | After a prompt answered with `rememberPermission` whose insert returned, later requests from that host whose lookup returns are not prompted, whatever `confirm` was |
| `Nip44Session.ConfirmWithoutRememberAsksAgain` | src/extension/background-script/actions/nostr/nip44EncryptOrPrompt.ts:47-61 | Two identical requests confirmed without remembering are each prompted and each encrypted once, and the store is unchanged |
| `Nip44Properties.NoHostNoEffects` | src/extension/background-script/actions/nostr/nip44EncryptOrPrompt.ts:15-16 | Without a host (missing or empty) there is no response, no lookup, no prompt, no insert and no encryption |
| `Nip44Properties.StandingGrantEncrypts` | src/extension/background-script/actions/nostr/nip44EncryptOrPrompt.ts:24-30 | With the grant held, one encryption and no prompt; the store is unchanged; the answer is `{data: ciphertext}` or the caught throw |
| `Nip44Properties.PromptBeforeEncrypt` | src/extension/background-script/actions/nostr/nip44EncryptOrPrompt.ts:31-45 | Without the grant, the negative lookup is followed by exactly one prompt, which comes before any encryption |
| `Nip44Properties.RememberIffRecorded` | src/extension/background-script/actions/nostr/nip44EncryptOrPrompt.ts:47-53 | When the insert returns, the store gains the host's permission if and only if `rememberPermission` is set, whatever `confirm` is, and nothing else changes |
| `Nip44Properties.RememberedRejectionIsRecorded` | src/extension/background-script/actions/nostr/nip44EncryptOrPrompt.ts:48-63 | `{confirm: false, rememberPermission: true}` records the grant, answers with the rejection sentinel, and does not encrypt |
| `Nip44Properties.DeclinedNeverEncrypts` | src/extension/background-script/actions/nostr/nip44EncryptOrPrompt.ts:54-64 | A declined prompt never encrypts, and answers `{error: USER_REJECTED_ERROR}` unless recording the remembered decision threw |
| `Nip44Properties.ConfirmedEncryptsOnce` | src/extension/background-script/actions/nostr/nip44EncryptOrPrompt.ts:54-61 | A confirmed prompt encrypts exactly once and answers with the encryption's outcome, unless recording the remembered decision threw |
| `Nip44Properties.EncryptionNeedsAuthorization` | src/extension/background-script/actions/nostr/nip44EncryptOrPrompt.ts:24-61 | If the call encrypts, the caller had a host, the lookup returned, and the permission was already held or the prompt was confirmed |
| `Nip44Properties.LookupThrowsNoEffect` | src/extension/background-script/actions/nostr/nip44EncryptOrPrompt.ts:18-22 | A throwing lookup leaves the store unchanged and is the only call made; the answer is the caught throw |
| `Nip44Properties.GrantThrowsNoEncrypt` | src/extension/background-script/actions/nostr/nip44EncryptOrPrompt.ts:48-53 | A throwing insert means no encryption, even after a confirmation; the store is unchanged and the answer is the caught throw |
| `Nip44Properties.ThrowEndsTheCall` | src/extension/background-script/actions/nostr/nip44EncryptOrPrompt.ts:66-71 | A call that throws is the last call made, and the answer is `{error: message}` for an `Error` and nothing otherwise |
| `Nip44Properties.ResponseProvenance` | src/extension/background-script/actions/nostr/nip44EncryptOrPrompt.ts:24-71 | `{data}` is a ciphertext the encryption returned. `{error}` is the sentinel after a prompt in the log that was answered without `confirm`, or the message of a thrown `Error`. No response means no host or a thrown non-`Error` |

## Left out

- `getHostFromSender` is not part of this model. The host is a parameter, and
  a missing or empty host counts as "no host", as JavaScript's `!host` treats
  both.
- The permission storage behind `hasPermissionFor` and `addPermissionFor` is
  not part of this model. A lookup that returns reads the modelled permission
  set. An insert that returns adds to it. A throwing insert is assumed to leave
  the store unchanged.
- `getNostr().nip44Encrypt` is the NIP-44 primitive and is not part of this
  model. The outcome of fetching the signer and encrypting is one oracle value
  (a ciphertext or a throw). The log records the arguments it was called with.
- The prompt's suspension and the user interface are not modelled. The prompt
  is one oracle value: a decision, or a throw. `utils.openPrompt` is not part
  of this model, so what it does when the user closes the prompt (throw, and
  with which message) is an assumption: the model allows any thrown value
  there, and the broker passes an `Error`'s message on unchanged, which is the
  rejection sentinel only if `openPrompt` throws with that message.
- The fields of the request message that the prompt receives by spreading
  (`...message`) are not modelled. The modelled prompt request carries only the
  screen and the `encryptOrDecrypt` arguments.
- The string values of `PermissionMethodNostr` and of `USER_REJECTED_ERROR`
  live in files that are not part of this model. The permission method is an
  enumeration, and the sentinel is written as "User rejected".
- `console.error` logging in the `catch` clause is not modelled.
- Concurrency between requests is not modelled. `Run` handles requests one
  after another, so two prompts outstanding at once for the same host are out
  of scope.
- The Keysend screen, `setIcon` and the PSBT signing tests are not part of
  this model. They are a user-interface screen, a browser API wrapper and
  tests of code that is not shown.
