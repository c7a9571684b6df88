/** How a push target chooses between RPC and HTTP, and when it may leave HTTPS (internal/push/rpc.go,
    internal/push/push.go). */
module Transport {
  import opened Common

  datatype Mode = Auto | Http | Grpc

  datatype Scheme = Plain | Tls

  datatype Code = Unauthenticated | PermissionDenied | ResourceExhausted | OtherCode

  /** An RPC connection by number; `tls`: its credentials. */
  datatype Client = Client(id: nat, tls: bool)

  datatype Error = Rejected(code: Code) | Stopped | NoConnection

  datatype Choice = ViaHttp | ViaRpc(client: Client) | Refused(err: Error)

  /** What `Identify` answered; `stopped`: the caller's context was done by then. */
  datatype ProbeResult = Identified(version: int, install: string) | Failed(code: Code, stopped: bool)

  /** What the network would do to one call of `rpcClient`. */
  datatype Attempt = Attempt(id: nat, connected: bool, probe: ProbeResult)

  /** A `target` with its `rpcTarget`. `origin` is the scheme it was configured with. */
  datatype Target = Target(
    mode: Mode, requireHTTPS: bool, hostIsIP: bool, origin: Scheme,
    scheme: Scheme, useHTTP: bool, client: Option<Client>, identity: Option<string>,
    probeErr: Option<Code>, retryAt: Option<Time>)

  /** `newTarget`. */
  predicate Fresh(t: Target) {
    && t == Target(t.mode, t.requireHTTPS, t.hostIsIP, t.origin, t.origin, false, None, None, None, None)
    && (t.requireHTTPS ==> t.origin == Tls)
  }

  predicate Retry(t: Target, began: Time) { t.probeErr.Some? && t.retryAt.Some? && began >= t.retryAt.value }

  function Cleared(t: Target, began: Time): Target {
    if Retry(t, began) then t.(probeErr := None, retryAt := None) else t
  }

  /** Does this call of `rpcClient` send the capability probe? */
  predicate Probes(t: Target, began: Time, a: Attempt) {
    && (t.probeErr.None? || Retry(t, began)) && t.mode == Auto && !t.useHTTP && t.client.None? && a.connected
  }

  /** Lines 86-109, for the result of a probe over connection `c`. */
  function Judged(t: Target, c: Client, p: ProbeResult, done: Time): (Target, Choice) {
    match p
    case Failed(code, stopped) =>
      if stopped then (t, Refused(Stopped))
      else (match code
            case Unauthenticated => (t.(probeErr := Some(code)), Refused(Rejected(code)))
            case PermissionDenied => (t.(probeErr := Some(code)), Refused(Rejected(code)))
            case ResourceExhausted => (t.(probeErr := Some(code), retryAt := Some(done + MINUTE)),
                                       Refused(Rejected(code)))
            case OtherCode => (t.(useHTTP := true), ViaHttp))
    case Identified(version, install) =>
      if version != 1 then (t.(useHTTP := true), ViaHttp)
      else (t.(identity := Some(install), client := Some(c)), ViaRpc(c))
  }

  /** `rpcClient`, which looks at the clock when it has the lock and again when its probe is back. */
  function Selected(t: Target, began: Time, done: Time, a: Attempt): (Target, Choice) {
    if t.probeErr.Some? && !Retry(t, began) then (t, Refused(Rejected(t.probeErr.value)))
    else
      var u := Cleared(t, began);
      if u.useHTTP || u.mode == Http then (u, ViaHttp)
      else if u.client.Some? then (u, ViaRpc(u.client.value))
      else if !a.connected then (u, Refused(NoConnection))
      else if u.mode == Auto then Judged(u, Client(a.id, u.scheme == Tls), a.probe, done)
      else (u.(client := Some(Client(a.id, u.scheme == Tls))), ViaRpc(Client(a.id, u.scheme == Tls)))
  }

  /** What `isPlainHTTP`, `isCertError`, `isExpiredCert` and `allowExpiredCertFallback` say of an error. */
  datatype HttpError = HttpError(plain: bool, cert: bool, expired: bool, chainValid: bool)

  predicate MayFallBack(t: Target, e: HttpError) {
    && t.mode == Http && t.scheme == Tls && !t.requireHTTPS
    && (e.plain || (t.hostIsIP && e.cert) || (!t.hostIsIP && e.expired && e.chainValid))
  }

  /** `fallbackHTTP`. */
  function FellBack(t: Target, e: HttpError): Target { if MayFallBack(t, e) then t.(scheme := Plain) else t }

  // ---------- what a target keeps ----------

  ghost predicate TargetInv(t: Target) {
    // at most one of the HTTP choice, the client and the probe failure
    && (t.useHTTP ==> t.client.None? && t.probeErr.None?)
    && (t.client.Some? ==> t.probeErr.None?)
    && (t.retryAt.Some? <==> t.probeErr == Some(ResourceExhausted))
    && t.probeErr != Some(OtherCode)
    && (t.mode == Http ==> !t.useHTTP && t.client.None?)
    && (t.mode != Auto ==> t.probeErr.None? && !t.useHTTP)
    && (t.mode == Auto ==> (t.client.Some? <==> t.identity.Some?))
    && (t.client.Some? ==> t.client.value.tls == (t.origin == Tls))
    && (t.requireHTTPS ==> t.origin == Tls)
    && (t.scheme != t.origin ==> t.mode == Http && !t.requireHTTPS && t.origin == Tls)
  }

  /** The answer that every call will get from now on, if it is fixed. */
  function Settled(t: Target): Option<Choice> {
    if t.useHTTP || t.mode == Http then Some(ViaHttp)
    else if t.client.Some? then Some(ViaRpc(t.client.value))
    else if t.probeErr.Some? && t.retryAt.None? then Some(Refused(Rejected(t.probeErr.value)))
    else None
  }

  lemma SelectKeeps(t: Target, began: Time, done: Time, a: Attempt)
    requires TargetInv(t)
    ensures TargetInv(Selected(t, began, done, a).0)
  {}

  /** A settled target answers as before, without a probe and without a change; an answer that names a
      transport or an authentication failure settles it. */
  lemma SelectSettles(t: Target, began: Time, done: Time, a: Attempt)
    requires TargetInv(t)
    ensures var (t', choice) := Selected(t, began, done, a);
            && (Settled(t).Some? ==> t' == t && Some(choice) == Settled(t) && !Probes(t, began, a))
            && (!choice.Refused? ==> Settled(t') == Some(choice))
            && (choice in {Refused(Rejected(Unauthenticated)), Refused(Rejected(PermissionDenied))}
                && Probes(t, began, a) ==>
                  Settled(t') == Some(choice))
  {}

  /** A call probes exactly in auto mode while nothing is settled, unless an exhausted server is to be left
      alone until `retryAt`; so an exhausted server is asked again, and nothing else is. */
  lemma ProbesExactly(t: Target, began: Time, a: Attempt)
    requires TargetInv(t)
    ensures Probes(t, began, a) <==>
              t.mode == Auto && Settled(t).None? && a.connected && (t.retryAt.Some? ==> began >= t.retryAt.value)
    ensures t.mode == Auto && Settled(t).None? && t.probeErr.Some? ==> t.probeErr == Some(ResourceExhausted)
  {}

  lemma FallBackKeeps(t: Target, e: HttpError)
    requires TargetInv(t)
    ensures TargetInv(FellBack(t, e)) && Settled(FellBack(t, e)) == Settled(t)
    ensures t.mode != Http || t.requireHTTPS ==> FellBack(t, e) == t
  {}

  // ---------- senders, interleaved ----------

  datatype Event =
    | Probed(began: Time, done: Time, result: ProbeResult)
    | Sent(via: Choice, scheme: Scheme)

  /** `callers`: what each caller of `rpcClient` was told and has not used yet. `unlocked`: when `rpc.mu`
      was last released. */
  datatype Sys = Sys(now: Time, unlocked: Time, target: Target, callers: map<nat, Choice>, log: seq<Event>)

  datatype Step =
    | Tick(later: Time)
    | Choose(caller: nat, began: Time, attempt: Attempt)
    | Send(caller: nat, scheme: Scheme)
    | FallBack(e: HttpError)

  /** A URL may have been read before a fallback changed it. */
  ghost predicate Next(s: Sys, s': Sys, step: Step) {
    match step
    case Tick(later) => later >= s.now && s' == s.(now := later)
    case Choose(caller, began, a) =>
      && s.unlocked <= began <= s.now
      && var (t', choice) := Selected(s.target, began, s.now, a);
         s' == s.(target := t', unlocked := s.now, callers := s.callers[caller := choice],
                  log := if Probes(s.target, began, a) then s.log + [Probed(began, s.now, a.probe)] else s.log)
    case Send(caller, scheme) =>
      && caller in s.callers && !s.callers[caller].Refused?
      && (match s.callers[caller]
          case ViaRpc(c) => scheme == (if c.tls then Tls else Plain)
          case _ => scheme in {s.target.scheme, s.target.origin})
      && s' == s.(callers := s.callers - {caller}, log := s.log + [Sent(s.callers[caller], scheme)])
    case FallBack(e) => s' == s.(target := FellBack(s.target, e))
  }

  predicate Exhausted(e: Event) { e.Probed? && e.result == Failed(ResourceExhausted, false) }

  predicate Inconclusive(e: Event) {
    e.Probed? && e.result.Failed? && (e.result.stopped || e.result.code == ResourceExhausted)
  }

  /** Nothing follows a probe that decided, and a minute follows one that found the server exhausted. */
  ghost predicate Spaced(log: seq<Event>) {
    forall i, j | 0 <= i < j < |log| && log[i].Probed? && log[j].Probed? ::
      Inconclusive(log[i]) && (Exhausted(log[i]) ==> log[j].began >= log[i].done + 60_000)
  }

  ghost predicate LogInv(s: Sys) {
    && Spaced(s.log)
    && s.unlocked <= s.now
    && (forall i | 0 <= i < |s.log| && s.log[i].Probed? && !Inconclusive(s.log[i]) :: Settled(s.target).Some?)
    && (forall i | 0 <= i < |s.log| && Exhausted(s.log[i]) ::
          || s.log[i].done + MINUTE <= s.unlocked
          || (s.target.retryAt.Some? && s.log[i].done + MINUTE <= s.target.retryAt.value))
  }

  ghost predicate SendInv(s: Sys) {
    && (forall c | c in s.callers && !s.callers[c].Refused? :: Settled(s.target) == Some(s.callers[c]))
    && (forall i | 0 <= i < |s.log| && s.log[i].Sent? :: Settled(s.target) == Some(s.log[i].via))
    && (forall i | 0 <= i < |s.log| && s.log[i].Sent? && s.log[i].scheme != s.target.origin ::
          s.target.mode == Http && !s.target.requireHTTPS)
  }

  ghost predicate SysInv(s: Sys) { TargetInv(s.target) && LogInv(s) && SendInv(s) }

  lemma ChooseKeepsLog(s: Sys, s': Sys, step: Step)
    requires SysInv(s) && Next(s, s', step) && step.Choose?
    ensures LogInv(s')
  {
    SelectSettles(s.target, step.began, s.now, step.attempt);
  }

  lemma ChooseKeepsSends(s: Sys, s': Sys, step: Step)
    requires SysInv(s) && Next(s, s', step) && step.Choose?
    ensures SendInv(s')
  {
    SelectSettles(s.target, step.began, s.now, step.attempt);
    hide Settled, Spaced, Inconclusive, Exhausted;
  }

  lemma StepKeeps(s: Sys, s': Sys, step: Step)
    requires SysInv(s) && Next(s, s', step)
    ensures SysInv(s')
  {
    match step
    case Choose(_, began, a) =>
      SelectKeeps(s.target, began, s.now, a);
      ChooseKeepsLog(s, s', step);
      ChooseKeepsSends(s, s', step);
    case FallBack(e) => FallBackKeeps(s.target, e);
    case _ =>
  }

  ghost predicate Run(ss: seq<Sys>, steps: seq<Step>) {
    && |ss| == |steps| + 1
    && Fresh(ss[0].target) && ss[0].unlocked <= ss[0].now && ss[0].callers == map[] && ss[0].log == []
    && forall k | 0 <= k < |steps| :: Next(ss[k], ss[k + 1], steps[k])
  }

  lemma {:induction false} RunKeeps(ss: seq<Sys>, steps: seq<Step>, k: nat)
    requires Run(ss, steps) && k < |ss|
    ensures SysInv(ss[k])
  {
    if k > 0 {
      RunKeeps(ss, steps, k - 1);
      StepKeeps(ss[k - 1], ss[k], steps[k - 1]);
    }
  }

  /** In every state of every run at most one of the three is set, and the scheme has changed only in
      HTTP mode, away from HTTPS, where HTTPS was not required. */
  lemma RunIsExclusive(ss: seq<Sys>, steps: seq<Step>, k: nat)
    requires Run(ss, steps) && k < |ss|
    ensures var t := ss[k].target;
            && !(t.useHTTP && t.client.Some?) && !(t.useHTTP && t.probeErr.Some?)
            && !(t.client.Some? && t.probeErr.Some?)
            && (t.scheme != t.origin ==> t.mode == Http && t.origin == Tls && !t.requireHTTPS)
  {
    RunKeeps(ss, steps, k);
  }

  lemma OnlyFallBackDowngrades(s: Sys, s': Sys, step: Step)
    requires Next(s, s', step)
    ensures s'.target.origin == s.target.origin && s'.target.hostIsIP == s.target.hostIsIP
    ensures s'.target.scheme != s.target.scheme ==> step.FallBack? && MayFallBack(s.target, step.e)
  {}

  /** A target that left HTTPS did so after an error that shows plain HTTP at the other end, a certificate
      that cannot be checked at an IP address, or one that has expired but was valid. */
  lemma {:induction false} DowngradeHasCause(ss: seq<Sys>, steps: seq<Step>, k: nat) returns (j: nat)
    requires Run(ss, steps) && k < |ss| && ss[k].target.scheme != ss[k].target.origin
    ensures j < k && steps[j].FallBack? && ss[k].target.hostIsIP == ss[j].target.hostIsIP
    ensures steps[j].e.plain
            || (if ss[j].target.hostIsIP then steps[j].e.cert else steps[j].e.expired && steps[j].e.chainValid)
  {
    hide Next;
    assert k > 0;
    OnlyFallBackDowngrades(ss[k - 1], ss[k], steps[k - 1]);
    if ss[k - 1].target.scheme == ss[k - 1].target.origin {
      j := k - 1;
    } else {
      j := DowngradeHasCause(ss, steps, k - 1);
    }
  }

  lemma StepKeepsSettled(s: Sys, s': Sys, step: Step)
    requires TargetInv(s.target) && Next(s, s', step) && Settled(s.target).Some?
    ensures Settled(s'.target) == Settled(s.target)
  {
    hide Settled, TargetInv;
    match step
    case Choose(_, began, a) => SelectSettles(s.target, began, s.now, a);
    case FallBack(e) => FallBackKeeps(s.target, e);
    case _ =>
  }

  lemma {:induction false} StaysSettled(ss: seq<Sys>, steps: seq<Step>, i: nat, k: nat)
    requires Run(ss, steps) && i <= k < |ss| && Settled(ss[i].target).Some?
    ensures Settled(ss[k].target) == Settled(ss[i].target)
  {
    hide Settled, TargetInv, Next;
    if i < k {
      StaysSettled(ss, steps, i, k - 1);
      RunKeeps(ss, steps, k - 1);
      StepKeepsSettled(ss[k - 1], ss[k], steps[k - 1]);
    }
  }

  /** Once a call has chosen a transport, or a probe was rejected for its credentials, every later call
      gets the same answer and sends no probe. */
  lemma ChoiceIsPermanent(ss: seq<Sys>, steps: seq<Step>, i: nat, k: nat)
    requires Run(ss, steps) && i < k < |steps| && steps[i].Choose? && steps[k].Choose?
    requires steps[i].caller in ss[i + 1].callers
    requires var choice := ss[i + 1].callers[steps[i].caller];
             || !choice.Refused?
             || (choice in {Refused(Rejected(Unauthenticated)), Refused(Rejected(PermissionDenied))}
                 && Probes(ss[i].target, steps[i].began, steps[i].attempt))
    ensures steps[k].caller in ss[k + 1].callers
            && ss[k + 1].callers[steps[k].caller] == ss[i + 1].callers[steps[i].caller]
    ensures ss[k + 1].target == ss[k].target && ss[k + 1].log == ss[k].log
  {
    RunKeeps(ss, steps, i);
    RunKeeps(ss, steps, k);
    assert Next(ss[i], ss[i + 1], steps[i]) && Next(ss[k], ss[k + 1], steps[k]);
    SelectSettles(ss[i].target, steps[i].began, ss[i].now, steps[i].attempt);
    StaysSettled(ss, steps, i + 1, k);
    SelectSettles(ss[k].target, steps[k].began, ss[k].now, steps[k].attempt);
  }

  /** A target sends everything over one transport for its whole life; where the mode is not plain HTTP, or
      HTTPS is required, also over the scheme it was configured with. */
  lemma OneTransport(ss: seq<Sys>, steps: seq<Step>, k: nat, i: nat, j: nat)
    requires Run(ss, steps) && k < |ss| && i < |ss[k].log| && j < |ss[k].log| && ss[k].log[i].Sent?
    requires ss[k].log[j].Sent?
    ensures ss[k].log[i].via == ss[k].log[j].via
    ensures ss[k].target.mode != Http || ss[k].target.requireHTTPS ==> ss[k].log[i].scheme == ss[k].target.origin
  {
    RunKeeps(ss, steps, k);
  }

  /** No probe follows one that decided, and an exhausted server is left alone for a minute. */
  lemma ProbesAreSpaced(ss: seq<Sys>, steps: seq<Step>, k: nat)
    requires Run(ss, steps) && k < |ss|
    ensures Spaced(ss[k].log)
  {
    RunKeeps(ss, steps, k);
  }

  // ---------- in place ----------

  /** What every call is told, over all runs. A probe decides by its answer: protocol version 1 selects RPC with that
      connection, any other version and any error but three select HTTP, a rejection is passed on, and an exhausted
      server is asked again after a minute. Without a probe HTTP mode sends over HTTP, RPC mode over its connection,
      and auto mode waits for the minute to pass or for a connection. */
  lemma ChoiceExactly(ss: seq<Sys>, steps: seq<Step>, k: nat)
    requires Run(ss, steps) && k < |steps| && steps[k].Choose?
    ensures steps[k].caller in ss[k + 1].callers
    ensures var t, t', a := ss[k].target, ss[k + 1].target, steps[k].attempt;
            var choice := ss[k + 1].callers[steps[k].caller];
            var asks := t.mode == Auto && !t.useHTTP && t.client.None? && a.connected
                        && (t.probeErr.None? || (t.retryAt.Some? && steps[k].began >= t.retryAt.value));
            && ss[k + 1].log == (if asks then ss[k].log + [Probed(steps[k].began, ss[k].now, a.probe)] else ss[k].log)
            && (asks ==>
                  match a.probe
                  case Failed(_, true) => choice == Refused(Stopped) && t' == t.(probeErr := None, retryAt := None)
                  case Failed(OtherCode, false) => choice == ViaHttp && t'.useHTTP
                  case Failed(ResourceExhausted, false) =>
                    choice == Refused(Rejected(ResourceExhausted)) && t'.retryAt == Some(ss[k].now + 60_000)
                  case Failed(code, false) => choice == Refused(Rejected(code)) && t'.retryAt.None?
                  case Identified(version, install) =>
                    if version == 1
                    then choice == ViaRpc(Client(a.id, t.origin == Tls)) && t'.identity == Some(install)
                    else choice == ViaHttp && t'.useHTTP)
            && (t.mode == Http ==> choice == ViaHttp && t' == t)
            && (t.mode == Grpc ==>
                  choice == (if t.client.Some? then ViaRpc(t.client.value)
                             else if a.connected then ViaRpc(Client(a.id, t.origin == Tls)) else Refused(NoConnection)))
            && (t.mode == Auto && !asks ==>
                  choice == (if t.useHTTP then ViaHttp
                             else if t.client.Some? then ViaRpc(t.client.value)
                             else if t.probeErr.Some? && (t.retryAt.None? || steps[k].began < t.retryAt.value)
                             then Refused(Rejected(t.probeErr.value))
                             else Refused(NoConnection)))
  {
    RunKeeps(ss, steps, k);
    assert Next(ss[k], ss[k + 1], steps[k]);
    hide LogInv, SendInv;
  }

  class RpcTarget {
    const mode: Mode
    const requireHTTPS: bool
    const hostIsIP: bool
    const origin: Scheme
    var scheme: Scheme
    var useHTTP: bool
    var client: Option<Client>
    var identity: Option<string>
    var probeErr: Option<Code>
    var retryAt: Option<Time>

    function State(): Target
      reads this
    {
      Target(mode, requireHTTPS, hostIsIP, origin, scheme, useHTTP, client, identity, probeErr, retryAt)
    }

    constructor (mode: Mode, requireHTTPS: bool, hostIsIP: bool, origin: Scheme)
      requires requireHTTPS ==> origin == Tls
      ensures Fresh(State()) && TargetInv(State())
    {
      this.mode, this.requireHTTPS, this.hostIsIP, this.origin, scheme := mode, requireHTTPS, hostIsIP, origin, origin;
      useHTTP, client, identity, probeErr, retryAt := false, None, None, None, None;
    }

    /** `rpcClient`. */
    method Select(began: Time, done: Time, a: Attempt) returns (choice: Choice)
      requires TargetInv(State())
      modifies this
      ensures (State(), choice) == Selected(old(State()), began, done, a) && TargetInv(State())
    {
      SelectKeeps(State(), began, done, a);
      if probeErr.Some? {
        if retryAt.None? || began < retryAt.value { return Refused(Rejected(probeErr.value)); }
        probeErr, retryAt := None, None;
      }
      if useHTTP || mode == Http { return ViaHttp; }
      if client.Some? { return ViaRpc(client.value); }
      var c := Client(a.id, scheme == Tls);
      if !a.connected { return Refused(NoConnection); }
      if mode == Auto {
        match a.probe {
          case Failed(code, stopped) =>
            if stopped { return Refused(Stopped); }
            match code {
              case ResourceExhausted =>
                probeErr, retryAt := Some(code), Some(done + MINUTE);
                return Refused(Rejected(code));
              case OtherCode =>
                useHTTP := true;
                return ViaHttp;
              case _ =>
                probeErr := Some(code);
                return Refused(Rejected(code));
            }
          case Identified(version, install) =>
            if version != 1 {
              useHTTP := true;
              return ViaHttp;
            }
            identity := Some(install);
        }
      }
      client := Some(c);
      return ViaRpc(c);
    }

    /** `fallbackHTTP`. */
    method FallbackHTTP(e: HttpError) returns (fell: bool)
      requires TargetInv(State())
      modifies this`scheme
      ensures State() == FellBack(old(State()), e) && TargetInv(State())
      ensures fell <==> MayFallBack(old(State()), e)
      ensures fell <==>
                && mode == Http && old(scheme) == Tls && !requireHTTPS
                && (e.plain || (hostIsIP && e.cert) || (!hostIsIP && e.expired && e.chainValid))
      ensures scheme == if fell then Plain else old(scheme)
    {
      FallBackKeeps(State(), e);
      if mode != Http { return false; }
      if scheme != Tls || requireHTTPS { return false; }
      var allowed := e.plain || (hostIsIP && e.cert);
      if !allowed && !hostIsIP && e.expired { allowed := e.chainValid; }
      if !allowed { return false; }
      scheme := Plain;
      return true;
    }
  }
}
