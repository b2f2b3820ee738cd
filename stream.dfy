/**
 * The decoder over a whole stream of UART events: FeedAll applies Feed to
 * each event in turn. The lemmas here state what a stream does to one
 * direction: bytes without a flag never leave Open, a complete frame yields its
 * annotations and ends in Open, the other direction cannot change a
 * direction's state, and the debug option changes nothing but the debug rows.
 */
module StreamProperties {
  import opened Wrappers
  import opened ControlField
  import opened ValueFormat
  import opened FrameMachine

  /** One call of decode: sample span and the UART packet. */
  datatype Event = Event(ss: int, es: int, data: UartData)

  function FeedAll(m: Machine, cfg: Config, evs: seq<Event>): (r: Machine)
    requires Valid(m)
    ensures Valid(r) && m.out <= r.out
    decreases |evs|
  {
    if evs == [] then m
    else FeedAll(Feed(m, cfg, evs[0].ss, evs[0].es, evs[0].data), cfg, evs[1..])
  }

  lemma {:induction false} FeedAllAppend(m: Machine, cfg: Config, a: seq<Event>, b: seq<Event>)
    requires Valid(m)
    ensures FeedAll(m, cfg, a + b) == FeedAll(FeedAll(m, cfg, a), cfg, b)
    decreases |a|
  {
    if a != [] {
      assert (a + b)[1..] == a[1..] + b;
      FeedAllAppend(Feed(m, cfg, a[0].ss, a[0].es, a[0].data), cfg, a[1..], b);
    } else {
      assert a + b == b;
    }
  }

  /** Every event is a data byte of direction `d`. */
  predicate ForDir(evs: seq<Event>, d: nat)
  {
    forall i :: 0 <= i < |evs| ==> evs[i].data.kind == "DATA" && evs[i].data.dir == d
  }

  /** The events decode acts on for direction `d`, in order. */
  function OnlyDir(evs: seq<Event>, d: nat): (r: seq<Event>)
    ensures ForDir(r, d) && |r| <= |evs|
  {
    if evs == [] then []
    else if evs[0].data.kind == "DATA" && evs[0].data.dir == d then [evs[0]] + OnlyDir(evs[1..], d)
    else OnlyDir(evs[1..], d)
  }

  /** The payload annotations (classes 2 and up) of `anns`, in order. */
  function Payloads(anns: seq<Ann>): (r: seq<Ann>)
    ensures |r| <= |anns|
    ensures forall i :: 0 <= i < |r| ==> 2 <= r[i].cls
  {
    if anns == [] then []
    else (if 2 <= anns[0].cls then [anns[0]] else []) + Payloads(anns[1..])
  }

  lemma {:induction false} PayloadsAppend(a: seq<Ann>, b: seq<Ann>)
    ensures Payloads(a + b) == Payloads(a) + Payloads(b)
    decreases |a|
  {
    if a != [] {
      assert (a + b)[1..] == a[1..] + b;
      PayloadsAppend(a[1..], b);
    } else {
      assert a + b == b;
    }
  }

  /** put_debug of label `l` for each event, in order. */
  function DebugEach(cfg: Config, d: nat, evs: seq<Event>, l: Label): seq<Ann>
  {
    if evs == [] then [] else Debug(cfg, d, evs[0].ss, evs[0].es, l) + DebugEach(cfg, d, evs[1..], l)
  }

  /**
   * Resync holds until a flag arrives: from Open, bytes that are never the flag keep the
   * direction in Open (length 0, no control tag), emit only one '!' per byte on
   * its debug row, and touch neither the other direction nor the address.
   */
  lemma {:induction false} NoFlagStaysOpen(m: Machine, cfg: Config, d: nat, evs: seq<Event>)
    requires Valid(m) && d < 2 && Dir(m, d).phase == Open && ForDir(evs, d)
    requires forall i :: 0 <= i < |evs| ==> evs[i].data.value != Flag
    ensures var r := FeedAll(m, cfg, evs);
      Dir(r, d) == Reset && Dir(r, 1 - d) == Dir(m, 1 - d) && r.addr == m.addr
      && r.out == m.out + DebugEach(cfg, d, evs, Resync)
    decreases |evs|
  {
    if evs != [] {
      var m1 := Feed(m, cfg, evs[0].ss, evs[0].es, evs[0].data);
      NoFlagStaysOpen(m1, cfg, d, evs[1..]);
    }
  }

  /** The annotations of the payload bytes `evs` of direction `d` on address `a`. */
  function DataAnns(cfg: Config, d: nat, a: nat, evs: seq<Event>): seq<Ann>
    requires d < 2
  {
    if evs == [] then []
    else
      var v := Value(FormatValue(cfg.format, evs[0].data.value));
      Debug(cfg, d, evs[0].ss, evs[0].es, v) + [Ann(evs[0].ss, evs[0].es, Channel(a, d), v)]
      + DataAnns(cfg, d, a, evs[1..])
  }

  /** The payload annotations a frame's information bytes must give: one per byte, in order. */
  function PayloadAnns(cfg: Config, d: nat, a: nat, evs: seq<Event>): (r: seq<Ann>)
    requires d < 2
    ensures |r| == |evs|
  {
    seq(|evs|, i requires 0 <= i < |evs| =>
      Ann(evs[i].ss, evs[i].es, Channel(a, d), Value(FormatValue(cfg.format, evs[i].data.value))))
  }

  /** Only the channel annotations of DataAnns are payloads, one per byte. */
  lemma {:induction false} DataAnnsPayloads(cfg: Config, d: nat, a: nat, evs: seq<Event>)
    requires d < 2
    ensures Payloads(DataAnns(cfg, d, a, evs)) == PayloadAnns(cfg, d, a, evs)
    decreases |evs|
  {
    if evs != [] {
      var v := Value(FormatValue(cfg.format, evs[0].data.value));
      var first := Debug(cfg, d, evs[0].ss, evs[0].es, v) + [Ann(evs[0].ss, evs[0].es, Channel(a, d), v)];
      var rest := DataAnns(cfg, d, a, evs[1..]);
      assert DataAnns(cfg, d, a, evs) == first + rest;
      DataStepPayload(cfg, d, evs[0].ss, evs[0].es, v, Ann(evs[0].ss, evs[0].es, Channel(a, d), v));
      DataAnnsPayloads(cfg, d, a, evs[1..]);
      PayloadsAppend(first, rest);
      assert PayloadAnns(cfg, d, a, evs) == [Ann(evs[0].ss, evs[0].es, Channel(a, d), v)] + PayloadAnns(cfg, d, a, evs[1..]);
    }
  }

  /** One information byte: its annotations, and one byte fewer left (or Fcs after the last). */
  lemma DataStep(m: Machine, cfg: Config, d: nat, e: Event)
    requires Valid(m) && d < 2 && Dir(m, d).phase == Data && e.data.kind == "DATA" && e.data.dir == d
    ensures var r := Feed(m, cfg, e.ss, e.es, e.data); var s := Dir(m, d);
      && Dir(r, d) == (if s.length <= 1 then s.(phase := Fcs) else s.(length := s.length - 1))
      && Dir(r, 1 - d) == Dir(m, 1 - d) && r.addr == m.addr
      && r.out == m.out + DataAnns(cfg, d, m.addr.value, [e])
  {
    assert [e][1..] == [];
  }

  /**
   * In Data with N bytes left, N bytes of the direction each give their
   * annotations and the direction ends in Fcs; the address and the other
   * direction do not change.
   */
  lemma {:induction false} DataRun(m: Machine, cfg: Config, d: nat, evs: seq<Event>)
    requires Valid(m) && d < 2 && Dir(m, d).phase == Data && ForDir(evs, d)
    requires |evs| == Dir(m, d).length
    ensures var r := FeedAll(m, cfg, evs);
      Dir(r, d) == Dir(m, d).(phase := Fcs, length := 1) && Dir(r, 1 - d) == Dir(m, 1 - d)
      && r.addr == m.addr && r.out == m.out + DataAnns(cfg, d, m.addr.value, evs)
    decreases |evs|
  {
    var a := m.addr.value;
    var m1 := Feed(m, cfg, evs[0].ss, evs[0].es, evs[0].data);
    DataStep(m, cfg, d, evs[0]);
    assert FeedAll(m, cfg, evs) == FeedAll(m1, cfg, evs[1..]);
    assert DataAnns(cfg, d, a, evs) == DataAnns(cfg, d, a, [evs[0]]) + DataAnns(cfg, d, a, evs[1..]) by {
      assert [evs[0]][1..] == [];
    }
    if |evs| == 1 {
      assert FeedAll(m1, cfg, evs[1..]) == m1;
      assert DataAnns(cfg, d, a, evs[1..]) == [];
    } else {
      DataRun(m1, cfg, d, evs[1..]);
      SeqAssoc(m.out, DataAnns(cfg, d, a, [evs[0]]), DataAnns(cfg, d, a, evs[1..]));
    }
  }

  lemma SeqAssoc<T>(x: seq<T>, y: seq<T>, z: seq<T>)
    ensures x + y + z == x + (y + z)
  {
  }

  /**
   * A frame for direction `d`, as header `hd` (flag, address, a known control
   * octet, a length octet whose value halved is N), N information bytes `body`
   * and tail `tl` (FCS and a closing byte).
   */
  predicate IsFrame(hd: seq<Event>, body: seq<Event>, tl: seq<Event>, d: nat)
  {
    && ForDir(hd, d) && ForDir(body, d) && ForDir(tl, d)
    && |hd| == 4 && |tl| == 2
    && hd[0].data.value == Flag
    && DecodeControl(hd[2].data.value) != NoType
    && |body| == hd[3].data.value / 2
  }

  /** Debug annotations of the flag, address, control and length octets `hd`. */
  function HeadAnns(cfg: Config, d: nat, hd: seq<Event>): (r: seq<Ann>)
    requires |hd| == 4
    ensures forall i :: 0 <= i < |r| ==> r[i].cls == d
  {
    Debug(cfg, d, hd[0].ss, hd[0].es, OpeningFlag)
    + Debug(cfg, d, hd[1].ss, hd[1].es, Dlc(hd[1].data.value / 4))
    + Debug(cfg, d, hd[2].ss, hd[2].es, Kind(DecodeControl(hd[2].data.value)))
    + Debug(cfg, d, hd[3].ss, hd[3].es, Length(hd[3].data.value / 2))
  }

  /** Debug annotations of the FCS octet and the closing byte `tl`. */
  function TailAnns(cfg: Config, d: nat, tl: seq<Event>): (r: seq<Ann>)
    requires |tl| == 2
    ensures forall i :: 0 <= i < |r| ==> r[i].cls == d
  {
    Debug(cfg, d, tl[0].ss, tl[0].es, Checksum(tl[0].data.value))
    + Debug(cfg, d, tl[1].ss, tl[1].es, if tl[1].data.value == Flag then ClosingFlag else Resync)
  }

  /** Everything a frame must annotate, debug rows included, in order. */
  function FrameAnns(cfg: Config, d: nat, hd: seq<Event>, body: seq<Event>, tl: seq<Event>): seq<Ann>
    requires d < 2 && IsFrame(hd, body, tl, d)
  {
    HeadAnns(cfg, d, hd) + DataAnns(cfg, d, hd[1].data.value / 4, body) + TailAnns(cfg, d, tl)
  }

  /** Two events in a row. */
  lemma FeedTwo(m: Machine, cfg: Config, e0: Event, e1: Event)
    requires Valid(m)
    ensures FeedAll(m, cfg, [e0, e1])
      == Feed(Feed(m, cfg, e0.ss, e0.es, e0.data), cfg, e1.ss, e1.es, e1.data)
  {
    var m1 := Feed(m, cfg, e0.ss, e0.es, e0.data);
    assert [e0, e1][1..] == [e1];
    assert [e1][1..] == [];
    assert FeedAll(m1, cfg, [e1]) == Feed(m1, cfg, e1.ss, e1.es, e1.data);
  }

  /** Opening flag, then any address octet: Open to Control, address set to byte / 4. */
  lemma FlagAndAddress(m: Machine, cfg: Config, d: nat, e0: Event, e1: Event)
    requires Valid(m) && d < 2 && Dir(m, d).phase == Open && ForDir([e0, e1], d)
    requires e0.data.value == Flag
    ensures var r := FeedAll(m, cfg, [e0, e1]);
      && Dir(r, d) == DirState(Control, 0, NoType) && Dir(r, 1 - d) == Dir(m, 1 - d)
      && r.addr == Some(e1.data.value / 4)
      && r.out == m.out + Debug(cfg, d, e0.ss, e0.es, OpeningFlag) + Debug(cfg, d, e1.ss, e1.es, Dlc(e1.data.value / 4))
  {
    FeedTwo(m, cfg, e0, e1);
  }

  /** A known control octet, then the length octet: Control to Data with length N, or to Fcs when N is 0. */
  lemma ControlAndLength(m: Machine, cfg: Config, d: nat, e2: Event, e3: Event)
    requires Valid(m) && d < 2 && Dir(m, d) == DirState(Control, 0, NoType) && ForDir([e2, e3], d)
    requires DecodeControl(e2.data.value) != NoType
    ensures var r := FeedAll(m, cfg, [e2, e3]); var n := e3.data.value / 2;
      && Dir(r, d) == DirState(if n > 0 then Data else Fcs, n, DecodeControl(e2.data.value))
      && Dir(r, 1 - d) == Dir(m, 1 - d) && r.addr == m.addr
      && r.out == m.out + Debug(cfg, d, e2.ss, e2.es, Kind(DecodeControl(e2.data.value))) + Debug(cfg, d, e3.ss, e3.es, Length(n))
  {
    FeedTwo(m, cfg, e2, e3);
  }

  /** The four header octets take a direction from Open to Data (or to Fcs when N is 0). */
  lemma FrameHead(m: Machine, cfg: Config, d: nat, hd: seq<Event>, n: nat)
    requires Valid(m) && d < 2 && Dir(m, d).phase == Open && ForDir(hd, d) && |hd| == 4
    requires hd[0].data.value == Flag && DecodeControl(hd[2].data.value) != NoType
    requires n == hd[3].data.value / 2
    ensures var r := FeedAll(m, cfg, hd);
      && Dir(r, d) == DirState(if n > 0 then Data else Fcs, n, DecodeControl(hd[2].data.value))
      && Dir(r, 1 - d) == Dir(m, 1 - d)
      && r.addr == Some(hd[1].data.value / 4)
      && r.out == m.out + HeadAnns(cfg, d, hd)
  {
    assert hd == [hd[0], hd[1]] + [hd[2], hd[3]];
    assert ForDir([hd[0], hd[1]], d) && ForDir([hd[2], hd[3]], d);
    FeedAllAppend(m, cfg, [hd[0], hd[1]], [hd[2], hd[3]]);
    FlagAndAddress(m, cfg, d, hd[0], hd[1]);
    var m2 := FeedAll(m, cfg, [hd[0], hd[1]]);
    ControlAndLength(m2, cfg, d, hd[2], hd[3]);
  }

  /** FCS then any closing byte: Fcs goes to Close, and Close always ends in Open. */
  lemma FrameTail(m: Machine, cfg: Config, d: nat, tl: seq<Event>)
    requires Valid(m) && d < 2 && Dir(m, d).phase == Fcs && ForDir(tl, d) && |tl| == 2
    ensures var r := FeedAll(m, cfg, tl);
      && Dir(r, d) == Reset && Dir(r, 1 - d) == Dir(m, 1 - d) && r.addr == m.addr
      && r.out == m.out + TailAnns(cfg, d, tl)
  {
    var m6 := Feed(m, cfg, tl[0].ss, tl[0].es, tl[0].data);
    var m7 := Feed(m6, cfg, tl[1].ss, tl[1].es, tl[1].data);
    assert tl[1..][1..] == [];
    assert FeedAll(m6, cfg, tl[1..]) == m7;
  }

  /**
   * Round trip of one frame: from Open, a frame gives exactly its annotations,
   * sets the shared address, leaves the other direction alone and ends in Open
   * whatever the closing byte is.
   */
  lemma FrameRoundTrip(m: Machine, cfg: Config, d: nat, hd: seq<Event>, body: seq<Event>, tl: seq<Event>)
    requires Valid(m) && d < 2 && Dir(m, d).phase == Open && IsFrame(hd, body, tl, d)
    ensures var r := FeedAll(m, cfg, hd + body + tl);
      && Dir(r, d) == Reset && Dir(r, 1 - d) == Dir(m, 1 - d)
      && r.addr == Some(hd[1].data.value / 4)
      && r.out == m.out + FrameAnns(cfg, d, hd, body, tl)
  {
    var a := hd[1].data.value / 4;
    FrameHead(m, cfg, d, hd, |body|);
    var m4 := FeedAll(m, cfg, hd);
    FeedAllAppend(m, cfg, hd + body, tl);
    FeedAllAppend(m, cfg, hd, body);
    var m5 := FeedAll(m4, cfg, body);
    if body != [] {
      DataRun(m4, cfg, d, body);
    } else {
      assert DataAnns(cfg, d, a, body) == [];
    }
    assert m5.out == m.out + HeadAnns(cfg, d, hd) + DataAnns(cfg, d, a, body);
    FrameTail(m5, cfg, d, tl);
    var r := FeedAll(m5, cfg, tl);
    assert FeedAll(m, cfg, hd + body + tl) == r;
    Regroup(m.out, HeadAnns(cfg, d, hd), DataAnns(cfg, d, a, body), TailAnns(cfg, d, tl));
  }

  lemma Regroup<T>(w: seq<T>, x: seq<T>, y: seq<T>, z: seq<T>)
    ensures w + x + y + z == w + (x + y + z)
  {
  }

  /**
   * The payload annotations of a frame: its N information bytes, each once,
   * in byte order, on channel (addr + 1) * 2 + d; nothing else of the frame
   * is a payload, whether or not debug is on.
   */
  lemma FramePayloads(cfg: Config, d: nat, hd: seq<Event>, body: seq<Event>, tl: seq<Event>)
    requires d < 2 && IsFrame(hd, body, tl, d)
    ensures Payloads(FrameAnns(cfg, d, hd, body, tl)) == PayloadAnns(cfg, d, hd[1].data.value / 4, body)
  {
    var a := hd[1].data.value / 4;
    var h := HeadAnns(cfg, d, hd);
    var t := TailAnns(cfg, d, tl);
    NoPayloads(h);
    NoPayloads(t);
    PayloadsAppend(h, DataAnns(cfg, d, a, body));
    PayloadsAppend(h + DataAnns(cfg, d, a, body), t);
    DataAnnsPayloads(cfg, d, a, body);
  }

  /** Annotations on the debug rows contribute no payload. */
  lemma {:induction false} NoPayloads(anns: seq<Ann>)
    requires forall i :: 0 <= i < |anns| ==> anns[i].cls < 2
    ensures Payloads(anns) == []
    decreases |anns|
  {
    if anns != [] {
      NoPayloads(anns[1..]);
    }
  }

  /**
   * An unrecognised control octet right after flag and address sends the
   * direction back to Open without reaching Len: '!' replaces the frame type.
   */
  lemma UnknownControlResets(m: Machine, cfg: Config, d: nat, hd: seq<Event>)
    requires Valid(m) && d < 2 && Dir(m, d).phase == Open && ForDir(hd, d) && |hd| == 3
    requires hd[0].data.value == Flag && DecodeControl(hd[2].data.value) == NoType
    ensures var r := FeedAll(m, cfg, hd);
      && Dir(r, d) == Reset && Dir(r, 1 - d) == Dir(m, 1 - d)
      && r.addr == Some(hd[1].data.value / 4)
      && r.out == m.out
        + Debug(cfg, d, hd[0].ss, hd[0].es, OpeningFlag)
        + Debug(cfg, d, hd[1].ss, hd[1].es, Dlc(hd[1].data.value / 4))
        + Debug(cfg, d, hd[2].ss, hd[2].es, Resync)
  {
    assert hd == [hd[0], hd[1]] + [hd[2]];
    assert ForDir([hd[0], hd[1]], d);
    FeedAllAppend(m, cfg, [hd[0], hd[1]], [hd[2]]);
    FlagAndAddress(m, cfg, d, hd[0], hd[1]);
    var m2 := FeedAll(m, cfg, [hd[0], hd[1]]);
    assert [hd[2]][1..] == [];
    assert FeedAll(m2, cfg, [hd[2]]) == Feed(m2, cfg, hd[2].ss, hd[2].es, hd[2].data);
  }

  /**
   * Isolation: what a direction's state becomes depends only on the data
   * bytes of that direction. Bytes of the other direction, non-data packets
   * and packets of any other direction number change nothing of it.
   */
  lemma {:induction false} DirIsolation(m1: Machine, m2: Machine, cfg: Config, d: nat, evs: seq<Event>)
    requires Valid(m1) && Valid(m2) && d < 2 && Dir(m1, d) == Dir(m2, d)
    ensures Dir(FeedAll(m1, cfg, evs), d) == Dir(FeedAll(m2, cfg, OnlyDir(evs, d)), d)
    decreases |evs|
  {
    if evs != [] {
      var e := evs[0];
      var n1 := Feed(m1, cfg, e.ss, e.es, e.data);
      if e.data.kind == "DATA" && e.data.dir == d {
        var n2 := Feed(m2, cfg, e.ss, e.es, e.data);
        assert OnlyDir(evs, d)[1..] == OnlyDir(evs[1..], d);
        DirIsolation(n1, n2, cfg, d, evs[1..]);
      } else {
        DirIsolation(n1, m2, cfg, d, evs[1..]);
      }
    }
  }

  /**
   * The debug option changes nothing but the debug rows: two runs with the
   * same format agree on both directions, on the address and on the payload
   * annotations; with debug off, the payload annotations are all there is.
   */
  lemma {:induction false} DebugOnlyAddsDiagnostics(m1: Machine, m2: Machine, cfg1: Config, cfg2: Config, evs: seq<Event>)
    requires Valid(m1) && m2 == m1.(out := m2.out) && cfg1.format == cfg2.format
    ensures var r1 := FeedAll(m1, cfg1, evs); var r2 := FeedAll(m2, cfg2, evs);
      && r1.rx == r2.rx && r1.tx == r2.tx && r1.addr == r2.addr
      && Payloads(r1.out[|m1.out|..]) == Payloads(r2.out[|m2.out|..])
      && (cfg2.debug != "yes" ==> r2.out[|m2.out|..] == Payloads(r2.out[|m2.out|..]))
    decreases |evs|
  {
    if evs == [] {
      assert FeedAll(m1, cfg1, evs).out[|m1.out|..] == [];
      assert FeedAll(m2, cfg2, evs).out[|m2.out|..] == [];
    } else {
      var e := evs[0];
      var n1 := Feed(m1, cfg1, e.ss, e.es, e.data);
      var n2 := Feed(m2, cfg2, e.ss, e.es, e.data);
      FeedPayloads(m1, m2, cfg1, cfg2, e);
      DebugOnlyAddsDiagnostics(n1, n2, cfg1, cfg2, evs[1..]);
      var r1 := FeedAll(n1, cfg1, evs[1..]);
      var r2 := FeedAll(n2, cfg2, evs[1..]);
      SliceSplit(m1.out, n1.out, r1.out);
      SliceSplit(m2.out, n2.out, r2.out);
      PayloadsAppend(n1.out[|m1.out|..], r1.out[|n1.out|..]);
      PayloadsAppend(n2.out[|m2.out|..], r2.out[|n2.out|..]);
    }
  }

  lemma SliceSplit<T>(x: seq<T>, y: seq<T>, z: seq<T>)
    requires x <= y <= z
    ensures z[|x|..] == y[|x|..] + z[|y|..]
  {
  }

  /** DebugOnlyAddsDiagnostics for a single packet. */
  lemma FeedPayloads(m1: Machine, m2: Machine, cfg1: Config, cfg2: Config, e: Event)
    requires Valid(m1) && m2 == m1.(out := m2.out) && cfg1.format == cfg2.format
    ensures var n1 := Feed(m1, cfg1, e.ss, e.es, e.data); var n2 := Feed(m2, cfg2, e.ss, e.es, e.data);
      && n2 == n1.(out := n2.out)
      && Payloads(n1.out[|m1.out|..]) == Payloads(n2.out[|m2.out|..])
      && (cfg2.debug != "yes" ==> n2.out[|m2.out|..] == Payloads(n2.out[|m2.out|..]))
  {
    var n1 := Feed(m1, cfg1, e.ss, e.es, e.data);
    var n2 := Feed(m2, cfg2, e.ss, e.es, e.data);
    if e.data.kind == "DATA" && (e.data.dir == 0 || e.data.dir == 1) {
      var d: nat := e.data.dir;
      var r1 := Step(Dir(m1, d), m1.addr, cfg1, d, e.ss, e.es, e.data.value);
      var r2 := Step(Dir(m1, d), m1.addr, cfg2, d, e.ss, e.es, e.data.value);
      StepPayloads(Dir(m1, d), m1.addr, cfg1, cfg2, d, e.ss, e.es, e.data.value);
      assert n1.out[|m1.out|..] == r1.anns;
      assert n2.out[|m2.out|..] == r2.anns;
    } else {
      assert n1.out[|m1.out|..] == [] && n2.out[|m2.out|..] == [];
    }
  }

  /** One byte under two configurations with the same format. */
  lemma StepPayloads(s: DirState, addr: Option<nat>, cfg1: Config, cfg2: Config, rxtx: nat, ss: int, es: int, b: nat)
    requires rxtx < 2 && Reachable(s, addr) && cfg1.format == cfg2.format
    ensures var r1 := Step(s, addr, cfg1, rxtx, ss, es, b); var r2 := Step(s, addr, cfg2, rxtx, ss, es, b);
      && r1.state == r2.state && r1.addr == r2.addr
      && Payloads(r1.anns) == Payloads(r2.anns)
      && (cfg2.debug != "yes" ==> r2.anns == Payloads(r2.anns))
  {
    if s.phase == Data {
      var v := Value(FormatValue(cfg1.format, b));
      var pay := Ann(ss, es, Channel(addr.value, rxtx), v);
      DataStepPayload(cfg1, rxtx, ss, es, v, pay);
      DataStepPayload(cfg2, rxtx, ss, es, v, pay);
    } else {
      StepDebugRowsOnly(s, addr, cfg1, rxtx, ss, es, b);
      StepDebugRowsOnly(s, addr, cfg2, rxtx, ss, es, b);
    }
  }

  lemma DataStepPayload(cfg: Config, rxtx: nat, ss: int, es: int, v: Label, pay: Ann)
    requires rxtx < 2 && 2 <= pay.cls
    ensures Payloads(Debug(cfg, rxtx, ss, es, v) + [pay]) == [pay]
    ensures cfg.debug != "yes" ==> Debug(cfg, rxtx, ss, es, v) + [pay] == [pay]
  {
    var dbg := Debug(cfg, rxtx, ss, es, v);
    NoPayloads(dbg);
    PayloadsAppend(dbg, [pay]);
    assert Payloads([pay]) == [pay] by { assert [pay][1..] == []; }
  }

  /** Outside Data, a byte only ever annotates the direction's debug row. */
  lemma StepDebugRowsOnly(s: DirState, addr: Option<nat>, cfg: Config, rxtx: nat, ss: int, es: int, b: nat)
    requires rxtx < 2 && Reachable(s, addr) && s.phase != Data
    ensures var r := Step(s, addr, cfg, rxtx, ss, es, b);
      && Payloads(r.anns) == []
      && (cfg.debug != "yes" ==> r.anns == [])
  {
    var r := Step(s, addr, cfg, rxtx, ss, es, b);
    assert |r.anns| <= 1 && forall i :: 0 <= i < |r.anns| ==> r.anns[i].cls == rxtx;
    NoPayloads(r.anns);
  }

  /** Every event carries a byte value (at most 0xFF), as with 8-bit UART frames. */
  predicate ByteEvents(evs: seq<Event>)
  {
    forall i :: 0 <= i < |evs| ==> evs[i].data.value < 0x100
  }

  /**
   * On byte input the address stays within 0..63, so every annotation class
   * is below 130: debug rows 0 and 1, payload channels 2 to 129.
   */
  lemma {:induction false} ChannelRange(m: Machine, cfg: Config, evs: seq<Event>)
    requires Valid(m) && ByteEvents(evs) && (m.addr.Some? ==> m.addr.value < 64)
    ensures var r := FeedAll(m, cfg, evs);
      && (r.addr.Some? ==> r.addr.value < 64)
      && forall i :: |m.out| <= i < |r.out| ==> r.out[i].cls < 130
    decreases |evs|
  {
    if evs != [] {
      var m1 := Feed(m, cfg, evs[0].ss, evs[0].es, evs[0].data);
      assert forall i :: |m.out| <= i < |m1.out| ==> m1.out[i].cls < 130;
      ChannelRange(m1, cfg, evs[1..]);
    }
  }

  /**
   * The address is one field for both directions: an address byte on TX
   * while RX is inside its payload re-routes RX's next payload byte to the
   * TX frame's channel.
   */
  lemma SharedAddressCrossTalk(m: Machine, cfg: Config, t: Event, e: Event)
    requires Valid(m) && m.rx.phase == Data && m.tx.phase == Addr
    requires t.data == UartData("DATA", 1, t.data.value) && e.data == UartData("DATA", 0, e.data.value)
    ensures var r := FeedAll(m, cfg, [t, e]);
      && |r.out| > 0
      && r.out[|r.out| - 1].cls == Channel(t.data.value / 4, 0)
      && r.out[|r.out| - 1].body == Value(FormatValue(cfg.format, e.data.value))
  {
    var m1 := Feed(m, cfg, t.ss, t.es, t.data);
    var m2 := Feed(m1, cfg, e.ss, e.es, e.data);
    assert [t, e][1..] == [e];
    assert FeedAll(m1, cfg, [e]) == m2;
  }

  /**
   * An RX frame carrying 'A' on DLC 0 with debug off and the default hex
   * format: one payload annotation, "41" on channel 2, and RX back in Open.
   */
  lemma ExampleRxFrame()
    ensures var hd := [Event(0, 1, UartData("DATA", 0, 0xF9)), Event(1, 2, UartData("DATA", 0, 0x00)),
                       Event(2, 3, UartData("DATA", 0, 0xEF)), Event(3, 4, UartData("DATA", 0, 0x03))];
            var body := [Event(4, 5, UartData("DATA", 0, 0x41))];
            var tl := [Event(5, 6, UartData("DATA", 0, 0xFF)), Event(6, 7, UartData("DATA", 0, 0xF9))];
            var r := FeedAll(Initial, Config("hex", "no"), hd + body + tl);
            r.rx == Reset && r.out == [Ann(4, 5, 2, Value(Some("41")))]
  {
    var hd := [Event(0, 1, UartData("DATA", 0, 0xF9)), Event(1, 2, UartData("DATA", 0, 0x00)),
               Event(2, 3, UartData("DATA", 0, 0xEF)), Event(3, 4, UartData("DATA", 0, 0x03))];
    var body := [Event(4, 5, UartData("DATA", 0, 0x41))];
    var tl := [Event(5, 6, UartData("DATA", 0, 0xFF)), Event(6, 7, UartData("DATA", 0, 0xF9))];
    var cfg := Config("hex", "no");
    assert IsFrame(hd, body, tl, 0);
    FrameRoundTrip(Initial, cfg, 0, hd, body, tl);
    assert ToRadix(0x41, 16) == "41";
    assert DataAnns(cfg, 0, 0, body[1..]) == [];
  }
}
