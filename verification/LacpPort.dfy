/** One port's receive and mux machines (servers/bond_3ad.c) as functions on values. */
module LacpPort {

  /** The eight bits of a port state octet. */
  datatype Flags = Flags(activity: bool, timeout: bool, aggregation: bool, sync: bool,
                         collecting: bool, distributing: bool, defaulted: bool, expired: bool)

  datatype Ident = Ident(number: nat, prio: nat, system: nat, sysPrio: nat, key: nat)

  /** A received LACPDU: what the partner says of itself and of us. */
  datatype Pdu = Pdu(actor: Ident, actorState: Flags, partner: Ident, partnerState: Flags)

  datatype Frame = Silence | Lacpdu(pdu: Pdu)

  datatype RxState = RxDummy | Initialize | PortDisabled | LacpDisabled | Expired | Defaulted | Current

  datatype MuxState = MuxDummy | Detached | Waiting | AttachedMux | CollectingDistributing | Collecting | Distributing

  datatype Vars = Vars(begin: bool, lacpEnabled: bool, ready: bool, readyN: bool, matched: bool, standby: bool,
      selected: bool)

  datatype Port = Port(vars: Vars, enabled: bool, rx: RxState, rxTimer: nat, mux: MuxState, muxTimer: nat,
                       actor: Ident, actorState: Flags, partner: Ident, partnerState: Flags,
                       admin: Ident, adminState: Flags)

  /** Timer ticks in a second, and whether collecting and distributing go together. */
  datatype Config = Config(ticks: nat, coupled: bool)

  /** What a tick sees of the rest of the bond: whether the port's aggregator is active, whether all
      other ports of it are ready, and whether the aggregator selection timer still runs. */
  datatype Env = Env(active: bool, othersReady: bool, waiting: bool)

  const SHORT_TIMEOUT_TIME := 3
  const LONG_TIMEOUT_TIME := 90
  const AGGREGATE_WAIT_TIME := 2

  function CurrentWhile(c: Config, short: bool): nat {
    (if short then SHORT_TIMEOUT_TIME else LONG_TIMEOUT_TIME) * c.ticks
  }

  // ----- the receive machine -----

  /** The PDU describes this port as it is, or an individual link. */
  predicate Matches(p: Port, pdu: Pdu) {
    (pdu.partner == p.actor && pdu.partnerState.aggregation == p.actorState.aggregation) || !pdu.actorState.aggregation
  }

  predicate SamePartner(x: Ident, xs: Flags, y: Ident, ys: Flags) {
    x == y && xs.aggregation == ys.aggregation
  }

  predicate Loopback(p: Port, pdu: Pdu) {
    pdu.actor.system == p.actor.system
  }

  function RecordPdu(p: Port, pdu: Pdu): Port {
    p.(vars := p.vars.(matched := Matches(p, pdu)),
       partner := pdu.actor,
       partnerState := pdu.actorState.(sync := Matches(p, pdu) && pdu.actorState.sync),
       actorState := p.actorState.(defaulted := false))
  }

  function RecordDefault(p: Port): Port {
    p.(partner := p.admin, partnerState := p.adminState, actorState := p.actorState.(defaulted := true))
  }

  /** The next receive state and timer, before the state's actions. */
  function RxNext(p: Port, frame: Frame): Port {
    if p.vars.begin then p.(rx := Initialize)
    else if !p.enabled then p.(rx := PortDisabled)
    else if frame.Lacpdu? && (p.rx.Expired? || p.rx.Defaulted? || p.rx.Current?) then p.(rxTimer := 0, rx := Current)
    else if p.rxTimer == 1 then
      p.(rxTimer := 0, rx := if p.rx.Expired? then Defaulted else if p.rx.Current? then Expired else p.rx)
    else
      p.(rxTimer := if p.rxTimer > 1 then p.rxTimer - 1 else 0,
         rx := if p.rx.PortDisabled? then (if p.vars.lacpEnabled then Expired else LacpDisabled) else p.rx)
  }

  function AtInitialize(p: Port): Port {
    var q := RecordDefault(p.(vars := p.vars.(lacpEnabled := p.actor.key % 2 == 1, selected := false,
        matched := false)));
    q.(actorState := q.actorState.(expired := false), rx := PortDisabled)
  }

  function AtLacpDisabled(p: Port): Port {
    var q := RecordDefault(p.(vars := p.vars.(selected := false, matched := true)));
    q.(partnerState := q.partnerState.(aggregation := false), actorState := q.actorState.(expired := false))
  }

  function AtExpired(c: Config, p: Port): Port {
    p.(vars := p.vars.(matched := false), partnerState := p.partnerState.(sync := false, timeout := true),
       rxTimer := CurrentWhile(c, true), actorState := p.actorState.(expired := true))
  }

  function AtDefaulted(p: Port): Port {
    var kept := SamePartner(p.admin, p.adminState, p.partner, p.partnerState);
    var q := RecordDefault(p.(vars := p.vars.(selected := p.vars.selected && kept, matched := true)));
    q.(actorState := q.actorState.(expired := false))
  }

  function AtCurrent(c: Config, p: Port, pdu: Pdu): Port {
    if Loopback(p, pdu) then p
    else
      var kept := SamePartner(pdu.actor, pdu.actorState, p.partner, p.partnerState);
      var q := RecordPdu(p.(vars := p.vars.(selected := p.vars.selected && kept)), pdu);
      q.(rxTimer := CurrentWhile(c, q.actorState.timeout), actorState := q.actorState.(expired := false))
  }

  /** The actions on entering a receive state, or on a received PDU. */
  function RxActions(c: Config, p: Port, frame: Frame): Port {
    match p.rx
    case Initialize => AtInitialize(p)
    case PortDisabled => p.(vars := p.vars.(matched := false))
    case LacpDisabled => AtLacpDisabled(p)
    case Expired => AtExpired(c, p)
    case Defaulted => AtDefaulted(p)
    case Current => if frame.Lacpdu? then AtCurrent(c, p, frame.pdu) else p
    case RxDummy => p
  }

  function Rx(c: Config, p: Port, frame: Frame): Port {
    var q := RxNext(p, frame);
    if q.rx != p.rx || frame.Lacpdu? then RxActions(c, q, frame) else q
  }

  // ----- selection, as one port sees it -----

  /** The selection logic always finds an aggregator; the port is out of sync if that is not active. */
  function Selection(p: Port, env: Env): Port {
    if p.vars.selected then p
    else p.(vars := p.vars.(selected := true, ready := p.vars.readyN && env.othersReady),
        actorState := p.actorState.(sync := p.actorState.sync && env.active))
  }

  // ----- the mux machine -----

  predicate MustDetach(p: Port) {
    !p.vars.selected || p.vars.standby || !p.partnerState.sync || !p.actorState.sync
  }

  function NotReady(p: Port): Port {
    p.(vars := p.vars.(readyN := false, ready := false), mux := Detached)
  }

  function MuxWaiting(p: Port, env: Env): Port {
    if !p.vars.selected then NotReady(p)
    else
      var timer := if p.muxTimer > 0 then p.muxTimer - 1 else 0;
      var readyN := p.vars.readyN || p.muxTimer == 1;
      var ready := readyN && env.othersReady;
      p.(muxTimer := timer, vars := p.vars.(readyN := readyN, ready := ready), mux := if ready && timer == 0
          then AttachedMux else Waiting)
  }

  function MuxAttached(c: Config, p: Port, env: Env): Port {
    if p.vars.selected && p.partnerState.sync && !env.waiting then
      (if env.active then p.(mux := if c.coupled then CollectingDistributing else Collecting) else p)
    else if !p.vars.selected || p.vars.standby then NotReady(p)
    else if env.active then p.(actorState := p.actorState.(sync := true))
    else p
  }

  function MuxNext(c: Config, p: Port, env: Env): Port {
    if p.vars.begin then p.(mux := Detached)
    else match p.mux
      case MuxDummy => p
      case Detached => if p.vars.selected || p.vars.standby then p.(mux := Waiting) else p
      case Waiting => MuxWaiting(p, env)
      case AttachedMux => MuxAttached(c, p, env)
      case CollectingDistributing => if MustDetach(p) then p.(mux := AttachedMux) else p
      case Collecting =>
        if MustDetach(p) then p.(mux := AttachedMux)
        else if p.partnerState.collecting then p.(mux := Distributing) else p
      case Distributing => if MustDetach(p) || !p.partnerState.collecting then p.(mux := Collecting) else p
  }

  /** The actions on entering a mux state. */
  function MuxActions(c: Config, p: Port, env: Env): Port {
    match p.mux
    case Detached => p.(actorState := p.actorState.(sync := false, collecting := false, distributing := false))
    case Waiting => p.(muxTimer := AGGREGATE_WAIT_TIME * c.ticks)
    case AttachedMux => p.(actorState := p.actorState.(sync := env.active, collecting := false, distributing := false))
    case CollectingDistributing => p.(actorState := p.actorState.(sync := true, collecting := true,
        distributing := true))
    case Collecting => p.(actorState := p.actorState.(sync := true, collecting := true, distributing := false))
    case Distributing => p.(actorState := p.actorState.(sync := true, distributing := true))
    case MuxDummy => p
  }

  function Mux(c: Config, p: Port, env: Env): Port {
    var q := MuxNext(c, p, env);
    if q.mux != p.mux then MuxActions(c, q, env) else q
  }

  /** One tick of the state machine handler for one port. */
  function Tick(c: Config, p: Port, env: Env): Port {
    var q := Mux(c, Selection(Rx(c, p, Silence), env), env);
    q.(vars := q.vars.(begin := false))
  }
}
