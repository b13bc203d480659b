/** A run of the broker over successive requests. The permission store is the
    only state that outlives a request: each request is handled against the
    store as the earlier requests left it. */
module Nip44Session {
  import opened Nip44Broker
  import opened Nip44Properties

  /** One request reaching the broker: the caller's host, the arguments, and
      what the foreign calls answer while it is handled. */
  datatype Request = Request(host: Option<string>, args: Args, fx: Effects)

  /** The responses to a run of requests, the store after it, and the foreign
      calls each request made. */
  datatype History = History(responses: seq<Option<Response>>, granted: set<Permission>, calls: seq<seq<Event>>)

  /** Handles `reqs` in order, starting from the store `granted`. */
  function Run(granted: set<Permission>, reqs: seq<Request>): (h: History)
    ensures |h.responses| == |reqs| && |h.calls| == |reqs|
    ensures granted <= h.granted
    decreases |reqs|
  {
    if reqs == [] then History([], granted, [])
    else
      var before := Run(granted, reqs[..|reqs| - 1]);
      var r := reqs[|reqs| - 1];
      var o := EncryptOrPrompt(before.granted, r.host, r.args, r.fx);
      EncryptOrPromptSafe(before.granted, r.host, r.args, r.fx);
      History(before.responses + [o.result], o.granted, before.calls + [o.trace])
  }

  /** The permissions inserted over a log of requests. */
  function GrantsOf(calls: seq<seq<Event>>): set<Permission> {
    if calls == [] then {} else GrantsOf(calls[..|calls| - 1]) + GrantsIn(calls[|calls| - 1])
  }

  lemma GrantsOfAppend(calls: seq<seq<Event>>, t: seq<Event>)
    ensures GrantsOf(calls + [t]) == GrantsOf(calls) + GrantsIn(t)
  {
    assert (calls + [t])[..|calls|] == calls;
  }

  /** Handling one more request extends the run by that request's response
      and log, against the store the run left. */
  lemma RunAppend(granted: set<Permission>, reqs: seq<Request>, r: Request)
    ensures var before := Run(granted, reqs);
      var o := EncryptOrPrompt(before.granted, r.host, r.args, r.fx);
      Run(granted, reqs + [r]) == History(before.responses + [o.result], o.granted, before.calls + [o.trace])
  {
    assert (reqs + [r])[..|reqs|] == reqs;
  }

  /** A run's first `i` requests give the first `i` responses and logs. */
  lemma {:induction false} RunPrefix(granted: set<Permission>, reqs: seq<Request>, i: nat)
    requires i <= |reqs|
    ensures Run(granted, reqs[..i]).calls == Run(granted, reqs).calls[..i]
    ensures Run(granted, reqs[..i]).responses == Run(granted, reqs).responses[..i]
    decreases |reqs|
  {
    if i == |reqs| {
      assert reqs[..i] == reqs;
    } else {
      var n := |reqs| - 1;
      var before := Run(granted, reqs[..n]);
      var h := Run(granted, reqs);
      assert h.calls == before.calls + [h.calls[n]] && h.responses == before.responses + [h.responses[n]];
      assert reqs[..n][..i] == reqs[..i];
      RunPrefix(granted, reqs[..n], i);
      assert h.calls[..i] == before.calls[..i] && h.responses[..i] == before.responses[..i];
    }
  }

  /** Request `i` is handled by the broker against the store as the requests
      before it left it. */
  lemma RunCall(granted: set<Permission>, reqs: seq<Request>, i: nat)
    requires i < |reqs|
    ensures var o := EncryptOrPrompt(Run(granted, reqs[..i]).granted, reqs[i].host, reqs[i].args, reqs[i].fx);
      Run(granted, reqs).calls[i] == o.trace && Run(granted, reqs).responses[i] == o.result &&
      Run(granted, reqs[..i + 1]).granted == o.granted
  {
    RunPrefix(granted, reqs, i + 1);
    assert reqs[..i + 1][..i] == reqs[..i];
  }

  /** Records persist: the store only grows as requests are handled. */
  lemma {:induction false} RunMonotone(granted: set<Permission>, reqs: seq<Request>, i: nat, j: nat)
    requires i <= j <= |reqs|
    ensures Run(granted, reqs[..i]).granted <= Run(granted, reqs[..j]).granted
    decreases j - i
  {
    if i < j {
      RunMonotone(granted, reqs, i + 1, j);
      RunCall(granted, reqs, i);
    }
  }

  /** Over a whole run, the store is the initial store plus exactly the
      permissions the broker inserted. */
  lemma {:induction false} RunAccounted(granted: set<Permission>, reqs: seq<Request>)
    ensures Run(granted, reqs).granted == granted + GrantsOf(Run(granted, reqs).calls)
    decreases |reqs|
  {
    if reqs != [] {
      var n := |reqs| - 1;
      RunAccounted(granted, reqs[..n]);
      EncryptOrPromptSafe(Run(granted, reqs[..n]).granted, reqs[n].host, reqs[n].args, reqs[n].fx);
      GrantsOfAppend(Run(granted, reqs[..n]).calls, Run(granted, reqs).calls[n]);
    }
  }

  /** Over a whole run, every request encrypts at most once and only after a
      standing grant or a confirmation, prompts at most once, and inserts
      records only after a prompt whose answer asked to remember. */
  lemma {:induction false} RunSafe(granted: set<Permission>, reqs: seq<Request>)
    ensures var h := Run(granted, reqs);
      forall i | 0 <= i < |reqs| ::
        Authorized(h.calls[i]) && GrantsRemembered(h.calls[i]) &&
        Encryptions(h.calls[i]) <= 1 && Prompts(h.calls[i]) <= 1
    decreases |reqs|
  {
    if reqs != [] {
      var n := |reqs| - 1;
      RunSafe(granted, reqs[..n]);
      var h := Run(granted, reqs);
      forall i | 0 <= i < |reqs|
        ensures Authorized(h.calls[i]) && GrantsRemembered(h.calls[i]) &&
                Encryptions(h.calls[i]) <= 1 && Prompts(h.calls[i]) <= 1
      {
        if i < n {
          assert h.calls[i] == Run(granted, reqs[..n]).calls[i];
        } else {
          EncryptOrPromptSafe(Run(granted, reqs[..n]).granted, reqs[n].host, reqs[n].args, reqs[n].fx);
        }
      }
    }
  }

  /** Once the caller's host holds the NIP-44 encryption permission, every
      later request from that host whose lookup returns encrypts once and is
      never prompted. */
  lemma StandingGrantIsNotPromptedAgain(granted: set<Permission>, reqs: seq<Request>, host: string, i: nat, j: nat)
    requires i <= j < |reqs|
    requires EncryptPermission(host) in Run(granted, reqs[..i]).granted
    requires host != "" && reqs[j].host == Some(host) && reqs[j].fx.lookupThrows.None?
    ensures Prompts(Run(granted, reqs).calls[j]) == 0
    ensures Encryptions(Run(granted, reqs).calls[j]) == 1
  {
    RunMonotone(granted, reqs, i, j);
    RunCall(granted, reqs, j);
  }

  /** A request whose prompt answer asks to remember, and whose insert
      returns, leaves the host with a grant: later requests from the same host
      whose lookup returns are encrypted without a prompt, whatever the first
      answer's `confirm` was. */
  lemma RememberedDecisionIsNotPromptedAgain(granted: set<Permission>, reqs: seq<Request>, host: string, i: nat, j: nat)
    requires i < j < |reqs|
    requires host != "" && reqs[i].host == Some(host) && reqs[j].host == Some(host)
    requires reqs[i].fx.lookupThrows.None? && reqs[i].fx.grantThrows.None?
    requires reqs[i].fx.prompt.Ok? && reqs[i].fx.prompt.value.rememberPermission
    requires reqs[j].fx.lookupThrows.None?
    ensures Prompts(Run(granted, reqs).calls[j]) == 0
    ensures Encryptions(Run(granted, reqs).calls[j]) == 1
  {
    RunCall(granted, reqs, i);
    StandingGrantIsNotPromptedAgain(granted, reqs, host, i + 1, j);
  }

  /** A confirmation that is not remembered is asked again: two identical
      requests from a host without a grant, each confirmed without
      remembering, are each prompted, each encrypted once, and leave the store
      as it was. */
  lemma ConfirmWithoutRememberAsksAgain(granted: set<Permission>, host: string, args: Args, ciphertext: string)
    requires host != "" && EncryptPermission(host) !in granted
    ensures var r := Request(Some(host), args, Effects(None, Ok(Decision(true, false)), None, Ok(ciphertext)));
      var h := Run(granted, [r, r]);
      h.responses == [Some(Data(ciphertext)), Some(Data(ciphertext))] &&
      Prompts(h.calls[0]) == 1 && Prompts(h.calls[1]) == 1 &&
      Encryptions(h.calls[0]) == 1 && Encryptions(h.calls[1]) == 1 &&
      h.granted == granted
  {
    var r := Request(Some(host), args, Effects(None, Ok(Decision(true, false)), None, Ok(ciphertext)));
    var o := EncryptOrPrompt(granted, r.host, r.args, r.fx);
    PromptBeforeEncrypt(granted, host, args, r.fx);
    ConfirmedEncryptsOnce(granted, host, args, r.fx);
    RememberIffRecorded(granted, host, args, r.fx, Decision(true, false));
    assert o.granted == granted;
    assert [r][..0] == [];
    assert Run(granted, []) == History([], granted, []);
    var h1 := Run(granted, [r]);
    assert h1 == History([o.result], granted, [o.trace]);
    assert [r, r][..1] == [r];
    assert Run(granted, [r, r]) == History([o.result, o.result], granted, [o.trace, o.trace]);
  }
}
