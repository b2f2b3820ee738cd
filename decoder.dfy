/**
 * The decoder object: per-direction state, remaining length and control tag
 * in two-element arrays indexed by direction (0 = RX, 1 = TX), one address
 * field shared by both directions, the options, and the annotations put so far.
 * Decode is proved to change the object exactly as the pure FrameMachine.Feed
 * prescribes; DecodeByte follows Step, ResetState gives Reset and PutDebug
 * appends what Debug gives.
 */
module Gsm0710 {
  import opened Wrappers
  import opened ControlField
  import opened ValueFormat
  import opened FrameMachine

  class Decoder {
    var state: array<Phase>
    var length: array<nat>
    var control: array<FrameType>
    var addr: Option<nat>
    var options: Config
    var out: seq<Ann>

    ghost predicate Shaped()
      reads this
    {
      state.Length == 2 && length.Length == 2 && control.Length == 2
    }

    ghost function DirView(d: nat): DirState
      reads this, state, length, control
      requires Shaped() && d < 2
    {
      DirState(state[d], length[d], control[d])
    }

    /** The decoder as a FrameMachine value. */
    ghost function View(): Machine
      reads this, state, length, control
      requires Shaped()
    {
      Machine(DirView(0), DirView(1), addr, out)
    }

    ghost predicate Valid()
      reads this, state, length, control
    {
      Shaped() && FrameMachine.Valid(View())
    }

    constructor (options: Config)
      ensures Valid() && View() == Initial && this.options == options
      ensures fresh(state) && fresh(length) && fresh(control)
    {
      state := new Phase[2](_ => Open);
      length := new nat[2](_ => 0);
      control := new FrameType[2](_ => NoType);
      addr := None;
      this.options := options;
      out := [];
    }

    /** reset_state: direction `rxtx` back to Open, length 0, no control tag. */
    method ResetState(rxtx: nat)
      requires Shaped() && rxtx < 2
      modifies state, length, control
      ensures Shaped() && DirView(rxtx) == Reset
      ensures forall d :: 0 <= d < 2 && d != rxtx ==> DirView(d) == old(DirView(d))
    {
      state[rxtx] := Open;
      length[rxtx] := 0;
      control[rxtx] := NoType;
    }

    /** put_debug: puts the annotation on row `rxtx` only when the debug option is "yes". */
    method PutDebug(rxtx: nat, ss: int, es: int, l: Label)
      modifies this`out
      ensures out == old(out) + Debug(options, rxtx, ss, es, l)
    {
      if options.debug == "yes" {
        out := out + [Ann(ss, es, rxtx, l)];
      }
    }

    /** decode: consumes one UART packet. */
    method Decode(ss: int, es: int, data: UartData)
      requires Valid()
      modifies this, state, length, control
      ensures Valid() && options == old(options)
      ensures View() == Feed(old(View()), options, ss, es, data)
    {
      if data.kind != "DATA" {
        return;
      }
      var rxtx: nat;
      if data.dir == 0 {
        rxtx := 0;
      } else if data.dir == 1 {
        rxtx := 1;
      } else {
        return;
      }
      DecodeByte(rxtx, ss, es, data.value);
    }

    /** The phase dispatch of decode, for a byte `b` of direction `rxtx`. */
    method DecodeByte(rxtx: nat, ss: int, es: int, b: nat)
      requires Valid() && rxtx < 2
      modifies this, state, length, control
      ensures Shaped() && options == old(options)
      ensures var r := Step(old(DirView(rxtx)), old(addr), options, rxtx, ss, es, b);
        DirView(rxtx) == r.state && addr == r.addr && out == old(out) + r.anns
      ensures DirView(1 - rxtx) == old(DirView(1 - rxtx))
    {
      match state[rxtx]
      case Open =>
        if b == Flag {
          state[rxtx] := Addr;
          PutDebug(rxtx, ss, es, OpeningFlag);
        } else {
          PutDebug(rxtx, ss, es, Resync);
          ResetState(rxtx);
        }
      case Addr =>
        var a := b / 4;
        addr := Some(a);
        state[rxtx] := Control;
        PutDebug(rxtx, ss, es, Dlc(a));
      case Control =>
        var c := DecodeControl(b);
        if c != NoType {
          control[rxtx] := c;
          state[rxtx] := Len;
          PutDebug(rxtx, ss, es, Kind(c));
        } else {
          PutDebug(rxtx, ss, es, Resync);
          ResetState(rxtx);
        }
      case Len =>
        var n := b / 2;
        length[rxtx] := n;
        PutDebug(rxtx, ss, es, Length(n));
        if n > 0 {
          state[rxtx] := Data;
        } else {
          state[rxtx] := Fcs;
        }
      case Data =>
        PutDebug(rxtx, ss, es, Value(FormatValue(options.format, b)));
        out := out + [Ann(ss, es, Channel(addr.value, rxtx), Value(FormatValue(options.format, b)))];
        if length[rxtx] <= 1 {
          state[rxtx] := Fcs;
        } else {
          length[rxtx] := length[rxtx] - 1;
        }
      case Fcs =>
        PutDebug(rxtx, ss, es, Checksum(b));
        state[rxtx] := Close;
      case Close =>
        if b == Flag {
          state[rxtx] := Open;
          PutDebug(rxtx, ss, es, ClosingFlag);
        } else {
          PutDebug(rxtx, ss, es, Resync);
        }
        ResetState(rxtx);
    }
  }
}
