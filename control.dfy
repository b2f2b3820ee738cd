/**
 * The control octet of a basic-option GSM 07.10 frame (3GPP TS 27.010,
 * section 5.2.1.3). The decoder recognises six frame types; bit 4 of the octet
 * (value 0x10) is the poll/final bit, which the table accepts either way.
 */
module ControlField {

  /** Frame type of a control octet; NoType is the decoder's empty tag. */
  datatype FrameType = NoType | SABM | UA | DM | DISC | UIH | UI

  /** The control octet of frame type `t` with its poll/final bit clear. */
  function BaseOctet(t: FrameType): (b: nat)
    requires t != NoType
    ensures b < 0x100 && (b / 0x10) % 2 == 0
  {
    match t
    case SABM => 0x2F
    case UA => 0x63
    case DM => 0x0F
    case DISC => 0x43
    case UIH => 0xEF
    case UI => 0x03
  }

  /** Encoder: the control octet of frame type `t` with poll/final bit `pf`. */
  function ControlOctet(t: FrameType, pf: bool): (b: nat)
    requires t != NoType
    ensures b < 0x100
    ensures (b / 0x10) % 2 == 1 <==> pf
  {
    if pf then BaseOctet(t) + 0x10 else BaseOctet(t)
  }

  /** The twelve control octets the decoder accepts. */
  const KnownOctets: set<nat> :=
    {0x2F, 0x3F, 0x63, 0x73, 0x0F, 0x1F, 0x43, 0x53, 0xEF, 0xFF, 0x03, 0x13}

  /**
   * Decoder: the frame type of control octet `b`, or NoType for any octet
   * outside the table. A recognised octet is exactly the encoding of its type
   * with the poll/final bit it carries.
   */
  function DecodeControl(b: nat): (t: FrameType)
    ensures t != NoType <==> b in KnownOctets
    ensures t != NoType ==> b == ControlOctet(t, (b / 0x10) % 2 == 1)
  {
    if b == 0x2F || b == 0x3F then SABM
    else if b == 0x63 || b == 0x73 then UA
    else if b == 0x0F || b == 0x1F then DM
    else if b == 0x43 || b == 0x53 then DISC
    else if b == 0xEF || b == 0xFF then UIH
    else if b == 0x03 || b == 0x13 then UI
    else NoType
  }

  /** Decoding the encoding of a frame type gives the type back, whatever the poll/final bit. */
  lemma ControlRoundTrip(t: FrameType, pf: bool)
    requires t != NoType
    ensures DecodeControl(ControlOctet(t, pf)) == t
  {
  }

  /** Flipping the poll/final bit never changes the decoded frame type. */
  lemma PollFinalIgnored(b: nat)
    ensures DecodeControl(if (b / 0x10) % 2 == 1 then b - 0x10 else b + 0x10) == DecodeControl(b)
  {
  }
}
