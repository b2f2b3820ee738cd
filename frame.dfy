/**
 * The per-direction frame state machine of the CMUX decoder, as values.
 * A Machine holds the RX and TX parser states, the address shared by both
 * directions and the annotations emitted so far; Feed is the effect of one
 * UART event on it. The Decoder class in module Gsm0710 is proved to update
 * its arrays and fields exactly as Feed says.
 *
 * Framing is the basic option of 3GPP TS 27.010, section 5.2.1, with a single
 * length octet: flag 0xF9, address, control, length, information, FCS, flag.
 */
module FrameMachine {
  import opened Wrappers
  import opened ControlField
  import opened ValueFormat

  const Flag: nat := 0xF9

  /** Where a direction stands in the frame grammar. */
  datatype Phase = Open | Addr | Control | Len | Data | Fcs | Close

  /** The per-direction fields: state, remaining length and control tag. */
  datatype DirState = DirState(phase: Phase, length: nat, control: FrameType)

  /** What reset_state leaves in a direction. */
  const Reset: DirState := DirState(Open, 0, NoType)

  /** The decoder's options (`format` and `debug`), as the host passes them. */
  datatype Config = Config(format: string, debug: string)

  /** Annotation texts, abstracted to their kind and numeric payload. */
  datatype Label =
    | Resync                        // the '!' diagnostic
    | OpeningFlag
    | Dlc(dlc: nat)
    | Kind(frameType: FrameType)
    | Length(count: nat)
    | Value(text: Option<string>)   // a payload byte, rendered by FormatValue
    | Checksum(fcs: nat)
    | ClosingFlag

  /** One annotation: sample span and annotation class (0/1 debug rows, 2.. channels). */
  datatype Ann = Ann(ss: int, es: int, cls: nat, body: Label)

  /** The UART decoder's output for one byte: packet type, direction, value. */
  datatype UartData = UartData(kind: string, dir: int, value: nat)

  datatype Machine = Machine(rx: DirState, tx: DirState, addr: Option<nat>, out: seq<Ann>)

  /** The machine before the first byte: both directions reset, no address yet. */
  const Initial: Machine := Machine(Reset, Reset, None, [])

  function Dir(m: Machine, d: nat): DirState
    requires d < 2
  {
    if d == 0 then m.rx else m.tx
  }

  /**
   * The states a direction can be in. The address has been set once any
   * direction got past ADDR, so a payload byte always has a channel to go to.
   */
  predicate Reachable(s: DirState, addr: Option<nat>)
  {
    match s.phase
    case Open => s.length == 0 && s.control == NoType
    case Addr => s.length == 0 && s.control == NoType
    case Control => s.length == 0 && s.control == NoType && addr.Some?
    case Len => s.length == 0 && s.control != NoType && addr.Some?
    case Data => 1 <= s.length && s.control != NoType && addr.Some?
    case Fcs => s.control != NoType && addr.Some?
    case Close => s.control != NoType && addr.Some?
  }

  predicate Valid(m: Machine)
  {
    Reachable(m.rx, m.addr) && Reachable(m.tx, m.addr)
  }

  /** put_debug: the annotation, on the direction's debug row, only when debug is "yes". */
  function Debug(cfg: Config, rxtx: nat, ss: int, es: int, l: Label): (r: seq<Ann>)
    ensures |r| <= 1
    ensures r != [] <==> cfg.debug == "yes"
    ensures forall a :: a in r ==> a.ss == ss && a.es == es && a.cls == rxtx && a.body == l
  {
    if cfg.debug == "yes" then [Ann(ss, es, rxtx, l)] else []
  }

  /**
   * The annotation class a payload byte of direction `rxtx` is routed to. It
   * is never a debug row, and it gives back both the address and the direction.
   */
  function Channel(addr: nat, rxtx: nat): (c: nat)
    requires rxtx < 2
    ensures 2 <= c
    ensures c / 2 - 1 == addr && c % 2 == rxtx
    ensures c < 10 <==> addr < 4
  {
    (addr + 1) * 2 + rxtx
  }

  datatype StepResult = StepResult(state: DirState, addr: Option<nat>, anns: seq<Ann>)

  /**
   * One byte `b` of direction `rxtx` on that direction's state `s`. Any byte
   * the grammar does not expect sends the direction back to Open.
   */
  function Step(s: DirState, addr: Option<nat>, cfg: Config, rxtx: nat, ss: int, es: int, b: nat): (r: StepResult)
    requires rxtx < 2 && Reachable(s, addr)
    ensures Reachable(r.state, r.addr)
    ensures addr.Some? ==> r.addr.Some?
  {
    match s.phase
    case Open =>
      if b == Flag then StepResult(s.(phase := Addr), addr, Debug(cfg, rxtx, ss, es, OpeningFlag))
      else StepResult(Reset, addr, Debug(cfg, rxtx, ss, es, Resync))
    case Addr =>
      StepResult(s.(phase := Control), Some(b / 4), Debug(cfg, rxtx, ss, es, Dlc(b / 4)))
    case Control =>
      var c := DecodeControl(b);
      if c != NoType then StepResult(s.(control := c, phase := Len), addr, Debug(cfg, rxtx, ss, es, Kind(c)))
      else StepResult(Reset, addr, Debug(cfg, rxtx, ss, es, Resync))
    case Len =>
      var n := b / 2;
      StepResult(s.(length := n, phase := if n > 0 then Data else Fcs), addr, Debug(cfg, rxtx, ss, es, Length(n)))
    case Data =>
      var v := FormatValue(cfg.format, b);
      var next := if s.length <= 1 then s.(phase := Fcs) else s.(length := s.length - 1);
      StepResult(next, addr, Debug(cfg, rxtx, ss, es, Value(v)) + [Ann(ss, es, Channel(addr.value, rxtx), Value(v))])
    case Fcs =>
      StepResult(s.(phase := Close), addr, Debug(cfg, rxtx, ss, es, Checksum(b)))
    case Close =>
      StepResult(Reset, addr, Debug(cfg, rxtx, ss, es, if b == Flag then ClosingFlag else Resync))
  }

  /**
   * decode(ss, es, data): a packet that is not a data byte, or whose direction
   * is neither 0 nor 1, changes nothing; otherwise that direction takes a Step
   * and its annotations are appended to the output.
   */
  function Feed(m: Machine, cfg: Config, ss: int, es: int, data: UartData): (r: Machine)
    requires Valid(m)
    ensures Valid(r)
    ensures data.kind != "DATA" || (data.dir != 0 && data.dir != 1) ==> r == m
    ensures data.dir != 0 ==> r.rx == m.rx
    ensures data.dir != 1 ==> r.tx == m.tx
    ensures m.out <= r.out
  {
    if data.kind != "DATA" then m
    else if data.dir == 0 then
      var st := Step(m.rx, m.addr, cfg, 0, ss, es, data.value);
      m.(rx := st.state, addr := st.addr, out := m.out + st.anns)
    else if data.dir == 1 then
      var st := Step(m.tx, m.addr, cfg, 1, ss, es, data.value);
      m.(tx := st.state, addr := st.addr, out := m.out + st.anns)
    else m
  }
}
