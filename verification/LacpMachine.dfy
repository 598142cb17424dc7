/** One port's state machines (servers/bond_3ad.c), run in place. */
module LacpMachine {
  import opened LacpPort
  import opened LacpTimeout

  class Machine {
    var vars: Vars
    var enabled: bool
    var rx: RxState
    var rxTimer: nat
    var mux: MuxState
    var muxTimer: nat
    var actor: Ident
    var actorState: Flags
    var partner: Ident
    var partnerState: Flags
    const admin: Ident
    const adminState: Flags

    ghost function View(): Port
      reads this
    {
      Port(vars, enabled, rx, rxTimer, mux, muxTimer, actor, actorState, partner, partnerState, admin, adminState)
    }

    /** A port as it is bound: about to begin, with nothing known of a partner. */
    constructor (actor: Ident, activity: bool, timeout: bool)
      ensures View().vars.begin && View().enabled && !View().adminState.sync && View().partnerState == View().adminState
      ensures View().rx.RxDummy? && View().mux.MuxDummy? && View().rxTimer == 0
    {
      var none := Flags(false, false, false, false, false, false, false, false);
      this.vars := Vars(true, true, false, false, false, false, false);
      this.enabled, this.rx, this.rxTimer, this.mux, this.muxTimer := true, RxDummy, 0, MuxDummy, 0;
      this.actor, this.actorState := actor, none.(activity := activity, timeout := timeout, aggregation := true);
      this.partner, this.partnerState := Ident(1, 0xff, 0, 0xffff, 1), none;
      this.admin, this.adminState := Ident(1, 0xff, 0, 0xffff, 1), none;
    }

    method ChooseMatched(pdu: Pdu)
      modifies this`vars
      ensures vars == old(vars).(matched := Matches(old(View()), pdu))
    {
      if (pdu.partner.number == actor.number && pdu.partner.prio == actor.prio && pdu.partner.system == actor.system &&
          pdu.partner.sysPrio == actor.sysPrio && pdu.partner.key == actor.key &&
          pdu.partnerState.aggregation == actorState.aggregation) || !pdu.actorState.aggregation {
        vars := vars.(matched := true);
      } else {
        vars := vars.(matched := false);
      }
    }

    method Record(pdu: Pdu)
      modifies this`vars, this`partner, this`partnerState, this`actorState
      ensures View() == RecordPdu(old(View()), pdu)
    {
      ChooseMatched(pdu);
      partner, partnerState := pdu.actor, pdu.actorState;
      actorState := actorState.(defaulted := false);
      if vars.matched && pdu.actorState.sync {
        partnerState := partnerState.(sync := true);
      } else {
        partnerState := partnerState.(sync := false);
      }
    }

    method RecordDefaults()
      modifies this`partner, this`partnerState, this`actorState
      ensures partner == admin && partnerState == adminState && actorState == old(actorState).(defaulted := true)
    {
      partner, partnerState := admin, adminState;
      actorState := actorState.(defaulted := true);
    }

    /** A partner that differs from what is known of it is not selected any more. */
    method UpdateSelected(ident: Ident, state: Flags)
      modifies this`vars
      ensures vars == old(vars).(selected := old(vars).selected && SamePartner(ident, state, partner, partnerState))
    {
      if ident.number != partner.number || ident.prio != partner.prio || ident.system != partner.system ||
         ident.sysPrio != partner.sysPrio || ident.key != partner.key || state.aggregation != partnerState.aggregation {
        vars := vars.(selected := false);
      }
    }

    method RxTransition(frame: Frame)
      modifies this`rx, this`rxTimer
      ensures View() == RxNext(old(View()), frame)
    {
      if vars.begin {
        rx := Initialize;
      } else if !enabled {
        rx := PortDisabled;
      } else if frame.Lacpdu? && (rx == Expired || rx == Defaulted || rx == Current) {
        rxTimer := 0;
        rx := Current;
      } else {
        var running := rxTimer > 0;
        if running {
          rxTimer := rxTimer - 1;
        }
        if running && rxTimer == 0 {
          if rx == Expired {
            rx := Defaulted;
          } else if rx == Current {
            rx := Expired;
          }
        } else if rx == PortDisabled {
          rx := if vars.lacpEnabled then Expired else LacpDisabled;
        }
      }
    }

    method EnterInitialize()
      modifies this`vars, this`rx, this`actorState, this`partner, this`partnerState
      ensures View() == AtInitialize(old(View()))
    {
      vars := vars.(lacpEnabled := actor.key % 2 == 1);
      vars := vars.(selected := false);
      RecordDefaults();
      actorState := actorState.(expired := false);
      rx := PortDisabled;
      vars := vars.(matched := false);
    }

    method EnterLacpDisabled()
      modifies this`vars, this`actorState, this`partner, this`partnerState
      ensures View() == AtLacpDisabled(old(View()))
    {
      vars := vars.(selected := false);
      RecordDefaults();
      partnerState := partnerState.(aggregation := false);
      vars := vars.(matched := true);
      actorState := actorState.(expired := false);
    }

    method EnterExpired(c: Config)
      modifies this`vars, this`rxTimer, this`actorState, this`partnerState
      ensures View() == AtExpired(c, old(View()))
    {
      vars := vars.(matched := false);
      partnerState := partnerState.(sync := false);
      partnerState := partnerState.(timeout := true);
      rxTimer := CurrentWhile(c, true);
      actorState := actorState.(expired := true);
    }

    method EnterDefaulted()
      modifies this`vars, this`actorState, this`partner, this`partnerState
      ensures View() == AtDefaulted(old(View()))
    {
      hide SamePartner;
      ghost var p := View();
      UpdateSelected(admin, adminState);
      assert View() == p.(vars := p.vars.(selected := vars.selected));
      RecordDefaults();
      vars := vars.(matched := true);
      actorState := actorState.(expired := false);
    }

    method EnterCurrent(c: Config, pdu: Pdu)
      modifies this`vars, this`rxTimer, this`actorState, this`partner, this`partnerState
      ensures View() == AtCurrent(c, old(View()), pdu)
    {
      hide SamePartner, Matches;
      if pdu.actor.system == actor.system {
        return;
      }
      UpdateSelected(pdu.actor, pdu.actorState);
      Record(pdu);
      rxTimer := CurrentWhile(c, actorState.timeout);
      actorState := actorState.(expired := false);
    }

    /** The actions of the receive state just entered. */
    method RxEnter(c: Config, frame: Frame)
      modifies this`vars, this`rx, this`rxTimer, this`actorState, this`partner, this`partnerState
      ensures View() == RxActions(c, old(View()), frame)
    {
      hide AtInitialize, AtLacpDisabled, AtExpired, AtDefaulted, AtCurrent;
      match rx
      case Initialize => EnterInitialize();
      case PortDisabled => vars := vars.(matched := false);
      case LacpDisabled => EnterLacpDisabled();
      case Expired => EnterExpired(c);
      case Defaulted => EnterDefaulted();
      case Current =>
        if frame.Lacpdu? {
          EnterCurrent(c, frame.pdu);
        }
      case RxDummy =>
    }

    /** The receive machine, on a PDU or on a tick without one.  A partner out of sync comes in sync exactly by a
        recorded, matching and synchronized PDU, and goes out of sync when the timer runs out. */
    method RxMachine(c: Config, frame: Frame)
      modifies this`vars, this`rx, this`rxTimer, this`actorState, this`partner, this`partnerState
      ensures View() == Rx(c, old(View()), frame)
      ensures !adminState.sync && !old(partnerState.sync) ==>
          (partnerState.sync <==> frame.Lacpdu? && Records(old(View()), frame.pdu))
      ensures frame.Silence? && old(!vars.begin && enabled && Waits(View(), 1)) ==> rx.Expired? && !partnerState.sync
    {
      if !adminState.sync && !partnerState.sync {
        SyncOnlyRecorded(c, View(), frame);
      }
      hide Records;
      var last := rx;
      RxTransition(frame);
      if rx != last || frame.Lacpdu? {
        RxEnter(c, frame);
      }
    }

    /** The selection logic, as far as this port is concerned. */
    method Select(env: Env)
      modifies this`vars, this`actorState
      ensures View() == Selection(old(View()), env)
    {
      if vars.selected {
        return;
      }
      vars := vars.(selected := true, ready := vars.readyN && env.othersReady);
      if !env.active {
        actorState := actorState.(sync := false);
      }
      assert actorState == old(actorState).(sync := old(actorState).sync && env.active);
    }

    method MoveToAttached() returns (moved: bool)
      modifies this`mux
      ensures moved == (MustDetach(old(View())) || old(mux).AttachedMux?)
      ensures mux == if MustDetach(old(View())) then AttachedMux else old(mux)
    {
      if !vars.selected || vars.standby || !partnerState.sync || !actorState.sync {
        mux := AttachedMux;
      }
      moved := mux == AttachedMux;
    }

    method Wait(env: Env)
      requires mux == Waiting
      modifies this`mux, this`muxTimer, this`vars
      ensures View() == MuxWaiting(old(View()), env)
    {
      if !vars.selected {
        vars := vars.(readyN := false, ready := false);
        mux := Detached;
        return;
      }
      if muxTimer > 0 {
        muxTimer := muxTimer - 1;
        if muxTimer == 0 {
          vars := vars.(readyN := true);
        }
      }
      vars := vars.(ready := vars.readyN && env.othersReady);
      if vars.ready && muxTimer == 0 {
        mux := AttachedMux;
      }
    }

    method Attach(c: Config, env: Env)
      modifies this`mux, this`vars, this`actorState
      ensures View() == MuxAttached(c, old(View()), env)
    {
      if vars.selected && partnerState.sync && !env.waiting {
        if env.active {
          mux := if c.coupled then CollectingDistributing else Collecting;
        }
      } else if !vars.selected || vars.standby {
        vars := vars.(readyN := false, ready := false);
        mux := Detached;
      } else if env.active {
        actorState := actorState.(sync := true);
      }
    }

    method MuxTransition(c: Config, env: Env)
      modifies this`mux, this`muxTimer, this`vars, this`actorState
      ensures View() == MuxNext(c, old(View()), env)
    {
      hide MuxWaiting, MuxAttached;
      if vars.begin {
        mux := Detached;
        return;
      }
      match mux
      case MuxDummy =>
      case Detached =>
        if vars.selected || vars.standby {
          mux := Waiting;
        }
      case Waiting =>
        Wait(env);
      case AttachedMux =>
        Attach(c, env);
      case CollectingDistributing =>
        var moved := MoveToAttached();
      case Collecting =>
        var moved := MoveToAttached();
        if !moved && vars.selected && partnerState.sync && partnerState.collecting {
          mux := Distributing;
        }
      case Distributing =>
        if !vars.selected || vars.standby || !partnerState.collecting || !partnerState.sync || !actorState.sync {
          mux := Collecting;
        }
    }

    /** The mux machine.  Without a synchronized partner it stops distributing at once, and collecting one tick
        later. */
    method MuxMachine(c: Config, env: Env)
      modifies this`mux, this`muxTimer, this`vars, this`actorState
      ensures View() == Mux(c, old(View()), env)
      ensures !partnerState.sync ==> Stopped(View())
      ensures old(Stopped(View())) ==> Idle(View())
    {
      MuxOut(c, View(), env);
      var last := mux;
      MuxTransition(c, env);
      if mux != last {
        match mux
        case Detached =>
          actorState := actorState.(sync := false, collecting := false, distributing := false);
        case Waiting =>
          muxTimer := AGGREGATE_WAIT_TIME * c.ticks;
        case AttachedMux =>
          actorState := actorState.(sync := env.active);
          actorState := actorState.(collecting := false, distributing := false);
        case CollectingDistributing =>
          actorState := actorState.(collecting := true, distributing := true, sync := true);
        case Collecting =>
          actorState := actorState.(collecting := true, distributing := false, sync := true);
        case Distributing =>
          actorState := actorState.(distributing := true, sync := true);
        case MuxDummy =>
      }
    }

    /** One tick of the state machine handler for this port.  An idle port stays idle, and the last tick of the
        timer stops the port. */
    method HandleTick(c: Config, env: Env)
      modifies this`mux, this`muxTimer, this`vars, this`rx, this`rxTimer, this`actorState, this`partner,
          this`partnerState
      ensures View() == LacpPort.Tick(c, old(View()), env) && !vars.begin
      ensures !adminState.sync && old(Stopped(View())) ==> Idle(View())
      ensures !adminState.sync && enabled && old(Waits(View(), 1)) ==> Stopped(View())
    {
      hide Rx, Mux;
      ghost var p := View();
      if !adminState.sync && Stopped(p) {
        StoppedTick(c, p, env);
      }
      if !adminState.sync && enabled && Waits(p, 1) {
        SilentTick(c, p, env, 1);
      }
      RxMachine(c, Silence);
      Select(env);
      MuxMachine(c, env);
      if vars.begin {
        vars := vars.(begin := false);
      }
    }

    /** Ticks without a PDU: how long the port goes on carrying traffic, exactly; and a port with a running timer has
        stopped by the time the timer has run out, and is idle one tick later. */
    method RunSilent(c: Config, envs: seq<Env>)
      modifies this`mux, this`muxTimer, this`vars, this`rx, this`rxTimer, this`actorState, this`partner,
          this`partnerState
      ensures !adminState.sync && old(Carries(View())) ==> (mux.CollectingDistributing? <==> Lasts(old(View()), |envs|))
      ensures !adminState.sync && enabled && old(rx.Current? && 0 < rxTimer <= |envs|) ==> Stopped(View())
      ensures !adminState.sync && enabled && old(rx.Current? && 0 < rxTimer < |envs|) ==> Idle(View())
    {
      hide LacpPort.Tick, Carries, Lasts, Stopped, Idle;
      ghost var p := View();
      ghost var t := rxTimer;
      ghost var armed := !adminState.sync && enabled && rx.Current? && rxTimer > 0;
      var i := 0;
      while i < |envs|
        invariant 0 <= i <= |envs| && enabled == p.enabled && View() == SilentTicks(c, p, envs[..i])
        invariant armed ==> Waits(View(), t - i) || Stopped(View())
        invariant armed && i > t ==> Idle(View())
      {
        assert envs[..i + 1][..i] == envs[..i];
        if armed {
          if Stopped(View()) {
            StoppedTick(c, View(), envs[i]);
            IdleStopped(LacpPort.Tick(c, View(), envs[i]));
          } else {
            SilentTick(c, View(), envs[i], t - i);
          }
        }
        TickEnabled(c, View(), envs[i]);
        HandleTick(c, envs[i]);
        i := i + 1;
      }
      assert envs[..|envs|] == envs;
      if !adminState.sync && Carries(p) {
        StillCarrying(c, p, envs);
      }
    }

    /** Ticks and received PDUs in any order: an idle port neither collects nor distributes before a matching and
        synchronized PDU was recorded. */
    method Serve(c: Config, es: seq<Event>) returns (ghost ps: seq<Port>)
      requires forall i :: 0 <= i < |es| ==> !es[i].Disturb?
      modifies this`mux, this`muxTimer, this`vars, this`rx, this`rxTimer, this`actorState, this`partner,
          this`partnerState
      ensures |ps| == |es| + 1 && ps[0] == old(View()) && ps[|es|] == View() && IsRun(c, ps, es)
      ensures !adminState.sync && old(Idle(View())) && !Idle(View()) ==>
        exists i :: 0 <= i < |es| && es[i].Receive? && Records(ps[i], es[i].pdu)
    {
      hide Rx, LacpPort.Tick, Records, Idle;
      ps := [View()];
      var i := 0;
      while i < |es|
        invariant 0 <= i <= |es| && |ps| == i + 1 && ps[0] == old(View()) && ps[i] == View()
        invariant forall j :: 0 <= j < i ==> Step(c, ps[j], es[j], ps[j + 1])
      {
        if es[i].Tick? {
          HandleTick(c, es[i].env);
        } else {
          RxMachine(c, Lacpdu(es[i].pdu));
        }
        ps := ps + [View()];
        i := i + 1;
      }
      if !adminState.sync && Idle(ps[0]) && forall j :: 0 <= j < |es| && es[j].Receive? ==> !Records(ps[j], es[j].pdu) {
        NoReentry(c, ps, es);
      }
    }
  }

  lemma IdleStopped(p: Port)
    requires Idle(p)
    ensures Stopped(p)
  {
  }

  lemma TickEnabled(c: Config, p: Port, env: Env)
    ensures LacpPort.Tick(c, p, env).enabled == p.enabled
  {
    hide Rx, Mux;
    TickOut(c, p, env);
    RxEnabled(c, p, Silence);
  }

  lemma RxEnabled(c: Config, p: Port, frame: Frame)
    ensures Rx(c, p, frame).enabled == p.enabled
  {
  }
}
