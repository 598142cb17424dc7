/** What silence does to a port: it stops carrying traffic when its current-while timer runs out, and does
    not carry traffic again before a matching, synchronized LACPDU is recorded. */
module LacpTimeout {
  import opened LacpPort

  datatype Event = Tick(env: Env) | Receive(pdu: Pdu) | Disturb

  /** Other code changes neither the two machines' states nor what is known of the partner. */
  ghost predicate Disturbed(p: Port, q: Port) {
    && q.rx == p.rx && q.rxTimer == p.rxTimer && q.mux == p.mux && q.partner == p.partner
         && q.partnerState == p.partnerState
    && q.admin == p.admin && q.adminState == p.adminState
  }

  ghost predicate Step(c: Config, p: Port, e: Event, q: Port) {
    match e
    case Tick(env) => q == LacpPort.Tick(c, p, env)
    case Receive(pdu) => q == Rx(c, p, Lacpdu(pdu))
    case Disturb => Disturbed(p, q)
  }

  ghost predicate IsRun(c: Config, ps: seq<Port>, es: seq<Event>) {
    |ps| == |es| + 1 && forall i :: 0 <= i < |es| ==> Step(c, ps[i], es[i], ps[i + 1])
  }

  function TickCount(es: seq<Event>): nat {
    if es == [] then 0 else TickCount(es[..|es| - 1]) + if es[|es| - 1].Tick? then 1 else 0
  }

  /** The PDU is recorded, matches this port and says that the partner is in sync. */
  predicate Records(p: Port, pdu: Pdu) {
    && !p.vars.begin && p.enabled && (p.rx.Expired? || p.rx.Defaulted? || p.rx.Current?)
    && !Loopback(p, pdu) && Matches(p, pdu) && pdu.actorState.sync
  }

  /** The port counts as out of sync with its partner, and neither collects nor distributes. */
  predicate Idle(p: Port) {
    !p.partnerState.sync && !p.mux.CollectingDistributing? && !p.mux.Collecting? && !p.mux.Distributing?
  }

  /** The port counts as out of sync with its partner, and does not distribute. */
  predicate Stopped(p: Port) {
    !p.partnerState.sync && !p.mux.CollectingDistributing? && !p.mux.Distributing?
  }

  /** A partner becomes synchronized exactly by a recorded, matching and synchronized PDU. */
  lemma SyncOnlyRecorded(c: Config, p: Port, frame: Frame)
    requires !p.adminState.sync && !p.partnerState.sync
    ensures Rx(c, p, frame).partnerState.sync <==> frame.Lacpdu? && Records(p, frame.pdu)
    ensures Rx(c, p, frame).mux == p.mux && Rx(c, p, frame).adminState == p.adminState
  {
    hide RxNext, RxActions;
    NextCurrent(p, frame);
    SyncActions(c, RxNext(p, frame), frame);
  }

  lemma NextCurrent(p: Port, frame: Frame)
    ensures var q := RxNext(p, frame);
      && q == p.(rx := q.rx, rxTimer := q.rxTimer)
      && (frame.Lacpdu? ==>
            (q.rx.Current? <==> !p.vars.begin && p.enabled && (p.rx.Expired? || p.rx.Defaulted? || p.rx.Current?)))
  {
  }

  lemma SyncActions(c: Config, p: Port, frame: Frame)
    requires !p.adminState.sync && !p.partnerState.sync
    ensures var q := RxActions(c, p, frame);
      && q.mux == p.mux && q.adminState == p.adminState
      && (q.partnerState.sync <==>
            p.rx.Current? && frame.Lacpdu? && !Loopback(p, frame.pdu) && Matches(p, frame.pdu)
                && frame.pdu.actorState.sync)
  {
    hide SamePartner;
  }

  /** What the two machines never touch in a port's state. */
  ghost predicate SameLink(p: Port, q: Port) {
    && q.rx == p.rx && q.rxTimer == p.rxTimer && q.partnerState == p.partnerState && q.adminState == p.adminState
    && q.enabled == p.enabled && q.vars.begin == p.vars.begin
  }

  lemma MuxNextOut(c: Config, p: Port, env: Env)
    ensures SameLink(p, MuxNext(c, p, env))
    ensures !p.partnerState.sync ==> Stopped(MuxNext(c, p, env))
    ensures Stopped(p) ==> Idle(MuxNext(c, p, env))
  {
  }

  lemma MuxActionsKeep(c: Config, p: Port, env: Env)
    ensures SameLink(p, MuxActions(c, p, env)) && MuxActions(c, p, env).mux == p.mux
  {
  }

  /** Without a synchronized partner the mux machine stops distributing at once. */
  lemma MuxOut(c: Config, p: Port, env: Env)
    ensures SameLink(p, Mux(c, p, env))
    ensures !p.partnerState.sync ==> Stopped(Mux(c, p, env))
    ensures Stopped(p) ==> Idle(Mux(c, p, env))
  {
    hide MuxNext, MuxActions;
    MuxNextOut(c, p, env);
    MuxActionsKeep(c, MuxNext(c, p, env), env);
  }

  lemma TickOut(c: Config, p: Port, env: Env)
    ensures var q, r := Rx(c, p, Silence), LacpPort.Tick(c, p, env);
      && SameLink(q, r.(vars := r.vars.(begin := q.vars.begin)))
      && (!q.partnerState.sync ==> Stopped(r)) && (Stopped(q) ==> Idle(r))
  {
    hide Rx, Mux;
    MuxOut(c, Selection(Rx(c, p, Silence), env), env);
  }

  lemma IdleTick(c: Config, p: Port, env: Env)
    requires !p.adminState.sync && Idle(p)
    ensures Idle(LacpPort.Tick(c, p, env)) && !LacpPort.Tick(c, p, env).adminState.sync
  {
    hide Rx, Records, LacpPort.Tick;
    SyncOnlyRecorded(c, p, Silence);
    TickOut(c, p, env);
  }

  /** A port that is out of sync and idle stays so in every run, until a matching and synchronized PDU is recorded. */
  lemma {:induction false} NoReentry(c: Config, ps: seq<Port>, es: seq<Event>)
    requires IsRun(c, ps, es) && !ps[0].adminState.sync && Idle(ps[0])
    requires forall i :: 0 <= i < |es| && es[i].Receive? ==> !Records(ps[i], es[i].pdu)
    ensures Idle(ps[|es|]) && !ps[|es|].adminState.sync
  {
    hide Rx, LacpPort.Tick, Records;
    if es != [] {
      var n := |es| - 1;
      NoReentry(c, ps[..n + 1], es[..n]);
      assert Step(c, ps[n], es[n], ps[n + 1]);
      match es[n]
      case Tick(env) => IdleTick(c, ps[n], env);
      case Receive(pdu) => SyncOnlyRecorded(c, ps[n], Lacpdu(pdu));
      case Disturb =>
    }
  }

  // ----- silence -----

  ghost predicate Waits(p: Port, left: int) {
    p.rx.Current? && p.rxTimer == left && left > 0
  }

  /** One tick without a PDU on an enabled port. */
  lemma SilentTick(c: Config, p: Port, env: Env, left: int)
    requires p.enabled && !p.adminState.sync && Waits(p, left)
    ensures var q := LacpPort.Tick(c, p, env); !q.adminState.sync && (Waits(q, left - 1) || Stopped(q)) && (q.enabled)
  {
    var q := Rx(c, p, Silence);
    assert Waits(q, left - 1) || !q.partnerState.sync;
    assert q.enabled && !q.adminState.sync;
    hide Rx, LacpPort.Tick;
    TickOut(c, p, env);
  }

  lemma StoppedTick(c: Config, p: Port, env: Env)
    requires !p.adminState.sync && Stopped(p)
    ensures var q := LacpPort.Tick(c, p, env); Idle(q) && !q.adminState.sync
  {
    hide Rx, Records, LacpPort.Tick;
    SyncOnlyRecorded(c, p, Silence);
    TickOut(c, p, env);
  }

  ghost predicate SilentRun(c: Config, ps: seq<Port>, es: seq<Event>) {
    && IsRun(c, ps, es) && (forall i :: 0 <= i < |es| ==> !es[i].Receive?)
    && (forall i :: 0 <= i < |ps| ==> ps[i].enabled) && !ps[0].adminState.sync
  }

  /** An enabled port that receives no LACPDU stops distributing within the ticks that are left on its
      positive current-while timer, and stops collecting at the latest one tick later. */
  lemma {:induction false} SilenceStops(c: Config, ps: seq<Port>, es: seq<Event>)
    requires SilentRun(c, ps, es) && ps[0].rx.Current? && ps[0].rxTimer > 0
    ensures var p := ps[|es|]; !p.adminState.sync && (Waits(p, ps[0].rxTimer - TickCount(es)) || Stopped(p))
    ensures TickCount(es) >= ps[0].rxTimer ==> Stopped(ps[|es|])
    ensures TickCount(es) > ps[0].rxTimer ==> Idle(ps[|es|])
  {
    hide Rx, LacpPort.Tick;
    if es != [] {
      var n := |es| - 1;
      SilenceStops(c, ps[..n + 1], es[..n]);
      assert Step(c, ps[n], es[n], ps[n + 1]);
      if es[n].Tick? {
        if Stopped(ps[n]) {
          StoppedTick(c, ps[n], es[n].env);
        } else {
          SilentTick(c, ps[n], es[n].env, ps[n].rxTimer);
        }
      }
    }
  }

  // ----- exactly when silence stops a port -----

  function SilentTicks(c: Config, p: Port, envs: seq<Env>): Port {
    if envs == [] then p else LacpPort.Tick(c, SilentTicks(c, p, envs[..|envs| - 1]), envs[|envs| - 1])
  }

  /** A port that collects and distributes, with nothing but silence to end it. */
  predicate Carries(p: Port) {
    && !p.vars.begin && p.vars.selected && !p.vars.standby && p.partnerState.sync && p.actorState.sync
    && p.mux.CollectingDistributing?
  }

  /** Whether a carrying port still carries traffic after `n` silent ticks. */
  predicate Lasts(p: Port, n: nat) {
    !p.enabled ||
    match p.rx
    case Current => p.rxTimer == 0 || n < p.rxTimer
    case Expired => p.rxTimer == 0 || n < p.rxTimer
    case PortDisabled => n < if p.rxTimer == 1 then 2 else 1
    case _ => true
  }

  lemma SilentNext(p: Port)
    requires Carries(p)
    ensures var q := RxNext(p, Silence);
      && q == p.(rx := q.rx, rxTimer := q.rxTimer)
      && if Lasts(p, 1) then (q.rx == p.rx || q.rx.PortDisabled?) && forall n: nat :: Lasts(q, n) == Lasts(p, n + 1)
         else q.rx != p.rx && (q.rx.Expired? || q.rx.Defaulted? || q.rx.LacpDisabled?)
  {
  }

  lemma SilentActions(c: Config, p: Port)
    requires !p.adminState.sync
    ensures var q := RxActions(c, p, Silence);
      && q.adminState == p.adminState && q.mux == p.mux
      && (p.rx.PortDisabled? ==> q == p.(vars := p.vars.(matched := false)))
      && (p.rx.Expired? || p.rx.Defaulted? || p.rx.LacpDisabled? ==> !q.partnerState.sync)
  {
  }

  /** What a silent tick does to the receive machine of a carrying port. */
  lemma SilentRx(c: Config, p: Port)
    requires Carries(p) && !p.adminState.sync
    ensures var q := Rx(c, p, Silence);
      && !q.adminState.sync && q.mux == p.mux
      && if Lasts(p, 1) then Carries(q) && q.enabled == p.enabled && forall n: nat :: Lasts(q, n) == Lasts(p, n + 1)
         else !q.partnerState.sync
  {
    hide RxNext, RxActions;
    SilentNext(p);
    var q, r := RxNext(p, Silence), Rx(c, p, Silence);
    SilentActions(c, q);
    if Lasts(p, 1) {
      assert r == q || r == q.(vars := q.vars.(matched := false));
      forall n: nat ensures Lasts(r, n) == Lasts(p, n + 1) {
        assert Lasts(r, n) == Lasts(q, n);
      }
    }
  }

  lemma CarryingMux(c: Config, p: Port, env: Env)
    requires Carries(p)
    ensures Mux(c, Selection(p, env), env) == p
  {
  }

  lemma CarryingTick(c: Config, p: Port, env: Env)
    requires Carries(p) && !p.adminState.sync
    ensures var q := LacpPort.Tick(c, p, env);
      && !q.adminState.sync
      && if Lasts(p, 1) then Carries(q) && forall n: nat :: Lasts(q, n) == Lasts(p, n + 1) else Stopped(q)
  {
    SilentRx(c, p);
    TickOut(c, p, env);
    hide Rx, Mux, Selection;
    if Lasts(p, 1) {
      CarryingMux(c, Rx(c, p, Silence), env);
    }
  }

  lemma {:induction false} StoppedTicks(c: Config, p: Port, envs: seq<Env>)
    requires !p.adminState.sync && Stopped(p)
    ensures !SilentTicks(c, p, envs).adminState.sync && Stopped(SilentTicks(c, p, envs))
  {
    hide LacpPort.Tick;
    if envs != [] {
      StoppedTicks(c, p, envs[..|envs| - 1]);
      StoppedTick(c, SilentTicks(c, p, envs[..|envs| - 1]), envs[|envs| - 1]);
    }
  }

  lemma {:induction false} CarryingTicks(c: Config, p: Port, envs: seq<Env>)
    requires Carries(p) && !p.adminState.sync
    ensures var q := SilentTicks(c, p, envs);
      && !q.adminState.sync
      && if Lasts(p, |envs|) then Carries(q) && forall n: nat :: Lasts(q, n) == Lasts(p, |envs| + n) else Stopped(q)
  {
    hide LacpPort.Tick;
    if envs != [] {
      var k := |envs| - 1;
      CarryingTicks(c, p, envs[..k]);
      var q := SilentTicks(c, p, envs[..k]);
      if Lasts(p, k) {
        assert Lasts(q, 1) == Lasts(p, k + 1);
        CarryingTick(c, q, envs[k]);
      } else {
        StoppedTick(c, q, envs[k]);
      }
    }
  }

  /** A port that carries traffic still does so after some silent ticks exactly in these cases: it is disabled; or
      in CURRENT or EXPIRED its timer is off, or had more ticks left than there were; or in PORT_DISABLED there were
      none, or one that the timer used up; or its receive state does not depend on time. */
  lemma StillCarrying(c: Config, p: Port, envs: seq<Env>)
    requires Carries(p) && !p.adminState.sync
    ensures SilentTicks(c, p, envs).mux.CollectingDistributing? <==> Lasts(p, |envs|)
  {
    hide LacpPort.Tick;
    CarryingTicks(c, p, envs);
  }

  /** A PDU with the port's own system address stops the timer and is not recorded, so that the port then carries
      traffic through any silence. */
  lemma LoopbackNeverStops(c: Config, p: Port, pdu: Pdu, envs: seq<Env>)
    requires Carries(p) && !p.adminState.sync && p.enabled && p.rx.Current? && Loopback(p, pdu)
    ensures SilentTicks(c, Rx(c, p, Lacpdu(pdu)), envs).mux.CollectingDistributing?
  {
    var q := Rx(c, p, Lacpdu(pdu));
    assert q == p.(rxTimer := 0);
    StillCarrying(c, q, envs);
  }

  /** A port's own LACPDU, looped back, shows that silence alone need not stop it. */
  lemma LoopbackExample() returns (p: Port, pdu: Pdu)
    ensures Carries(p) && p.enabled && p.rx.Current? && p.rxTimer > 0 && !p.adminState.sync && Loopback(p, pdu)
    ensures forall c, envs :: SilentTicks(c, Rx(c, p, Lacpdu(pdu)), envs).mux.CollectingDistributing?
  {
    var off := Flags(false, false, false, false, false, false, false, false);
    var on := Flags(true, true, true, true, true, true, false, false);
    var us, them := Ident(1, 255, 7, 65535, 1), Ident(2, 255, 8, 65535, 1);
    p := Port(Vars(false, true, true, true, true, false, true), true, Current, 30, CollectingDistributing, 0, us, on,
        them, on, Ident(1, 255, 0, 65535, 1), off);
    pdu := Pdu(us, on, them, on);
    forall c, envs ensures SilentTicks(c, Rx(c, p, Lacpdu(pdu)), envs).mux.CollectingDistributing? {
      LoopbackNeverStops(c, p, pdu, envs);
    }
  }
}
