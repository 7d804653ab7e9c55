// What the telnet server answers to each command, in the numbers of RFC 854
// (WILL 251, WONT 252, DO 253, DONT 254, IAC 255), what it learns from a
// subnegotiation, and that what it has said agrees with what it believes over
// any stream of bytes.

module TelnetAnswers {
  import opened Wrappers
  import opened Telnet
  import opened TelnetQuiet

  // ----- one command -----

  lemma {:induction false} FedThree(s: State, a: Byte, b: Byte, c: Byte)
    ensures var x := Step(s, a);
            var y := Step(x.state, b);
            Fed(s, [a, b, c]) == Then(x, Then(y, Step(y.state, c)))
  {
    var x := Step(s, a);
    FedPair(x.state, b, c);
    FedCons(s, a, [b, c], x);
    assert [a] + [b, c] == [a, b, c];
  }

  /** A command with nothing around it: it is no data, and the line is at data again. */
  predicate Answers(s: State, out: Output, reply: Bytes) {
    out.data == [] && out.reply == reply && out.state.framing == Data && out.state.afterCR == s.afterCR
    && out.state.silent == s.silent
  }

  predicate Listening(s: State) {
    s.framing == Data && !s.silent
  }

  /** The server offers to echo and to suppress go-ahead, says so once, and refuses all else every time. */
  lemma {:induction false} DoIsAnswered(s: State, opt: Byte)
    requires Listening(s)
    ensures var out := Fed(s, [255, 253, opt]);
            && out.state.weDo == s.weDo && out.state.ttypeRequested == s.ttypeRequested
            && (if opt != 1 && opt != 3 then Answers(s, out, [255, 252, opt]) && out.state.weWill == s.weWill
                else Answers(s, out, if opt in s.weWill then [] else [255, 251, opt])
                     && out.state.weWill == s.weWill + {opt})
  {
    FedThree(s, 255, 253, opt);
    assert opt in s.weWill ==> s.weWill + {opt} == s.weWill;
  }

  lemma {:induction false} DontIsAnswered(s: State, opt: Byte)
    requires Listening(s)
    ensures var out := Fed(s, [255, 254, opt]);
            && out.state.weDo == s.weDo && out.state.ttypeRequested == s.ttypeRequested
            && out.state.weWill == s.weWill - {opt}
            && Answers(s, out, if opt in s.weWill then [255, 252, opt] else [])
  {
    FedThree(s, 255, 254, opt);
    assert opt !in s.weWill ==> s.weWill - {opt} == s.weWill;
  }

  /**
   The server wants the terminal type and the window size, asks for each once
   at most, and for the terminal's name the first time it is offered; it
   declines every other offer.
   */
  lemma {:induction false} WillIsAnswered(s: State, opt: Byte)
    requires Listening(s)
    ensures var out := Fed(s, [255, 251, opt]);
            var ask := if opt in s.weDo then [] else [255, 253, opt];
            && out.state.weWill == s.weWill
            && out.state.ttypeRequested == (s.ttypeRequested || opt == 24)
            && (if opt == 24 then
                  && Answers(s, out, if s.ttypeRequested then ask else ask + [255, 250, 24, 1, 255, 240])
                  && out.state.weDo == s.weDo + {opt}
                else if opt == 31 then Answers(s, out, ask) && out.state.weDo == s.weDo + {opt}
                else Answers(s, out, [255, 254, opt]) && out.state.weDo == s.weDo)
  {
    FedThree(s, 255, 251, opt);
    var ask: Bytes := if opt in s.weDo then [] else [255, 253, opt];
    assert ask + [] == ask;
  }

  lemma {:induction false} WontIsAnswered(s: State, opt: Byte)
    requires Listening(s)
    ensures var out := Fed(s, [255, 252, opt]);
            && Answers(s, out, []) && out.state.weWill == s.weWill && out.state.weDo == s.weDo - {opt}
            && out.state.ttypeRequested == s.ttypeRequested
  {
    FedThree(s, 255, 252, opt);
  }

  /** Every offer is recorded once, in the order of the first ones, up to thirty-two; nothing else is. */
  lemma {:induction false} OffersAreRecorded(s: State, verb: Byte, opt: Byte)
    requires s.framing == Data && 251 <= verb <= 254
    ensures var m := Fed(s, [255, verb, opt]).state.meta;
            && m.negotiated
            && m == s.meta.(negotiated := true, clientWill :=
                 if verb == 251 && opt !in s.meta.clientWill && |s.meta.clientWill| < 32
                 then s.meta.clientWill + [opt] else s.meta.clientWill)
  {
    FedThree(s, 255, verb, opt);
  }

  /** Any other command goes unanswered and unseen; a doubled 255 is one byte of data. */
  lemma {:induction false} OtherCommands(s: State, b: Byte)
    requires s.framing == Data && b != 250 && !(251 <= b <= 254)
    ensures var out := Fed(s, [255, b]);
            && out.data == (if b == 255 then [255] else []) && out.reply == []
            && out.state == s.(afterCR := s.afterCR && b != 255, meta := s.meta.(negotiated := true))
  {
    FedPair(s, 255, b);
  }

  /** A silent server sends nothing but its opening. */
  lemma {:induction false} SilentServerSaysNothing(s: State, chunk: Bytes)
    requires s.silent
    ensures Fed(s, chunk).reply == [] && Fed(s, chunk).state.silent
    ensures Fed(s, chunk).state.weWill == s.weWill && Fed(s, chunk).state.weDo == s.weDo
    decreases |chunk|
  {
    if chunk != [] {
      SilentStep(s, chunk[0]);
      SilentServerSaysNothing(Step(s, chunk[0]).state, chunk[1..]);
    }
  }

  lemma {:induction false} SilentStep(s: State, b: Byte)
    requires s.silent
    ensures var x := Step(s, b);
            x.reply == [] && x.state.silent && x.state.weWill == s.weWill && x.state.weDo == s.weDo
  {
    match s.framing
    case Data => assert Step(s, b) == DataStep(s, b);
    case Command => assert Step(s, b) == CommandStep(s, b);
    case Option => assert Step(s, b) == OptionStep(s, b);
    case Sub =>
    case SubCommand => assert Step(s, b) == SubStep(s, b);
  }

  /** Once asked, the name of the terminal is never asked for again. */
  lemma {:induction false} RequestedStays(s: State, chunk: Bytes)
    requires s.ttypeRequested
    ensures Fed(s, chunk).state.ttypeRequested
    decreases |chunk|
  {
    if chunk != [] {
      var t := Step(s, chunk[0]).state;
      RequestedStep(s, chunk[0]);
      RequestedStays(t, chunk[1..]);
    }
  }

  lemma {:induction false} RequestedStep(s: State, b: Byte)
    requires s.ttypeRequested
    ensures Step(s, b).state.ttypeRequested
  {
    if s.framing.Option? {
      assert Negotiate(s, s.verb, b).0.ttypeRequested;
    } else if s.framing.SubCommand? {
      assert SubStep(s, b).state.ttypeRequested;
    }
  }

  // ----- subnegotiations -----

  function Doubled(payload: Bytes): Bytes {
    if payload == [] then [] else (if payload[0] == 255 then [255, 255] else [payload[0]]) + Doubled(payload[1..])
  }

  function Printables(b: Bytes): Bytes {
    if b == [] then [] else (if 32 <= b[0] <= 126 then [b[0]] else []) + Printables(b[1..])
  }

  /** The name of a terminal keeps its first printable characters. */
  lemma {:induction false} SanitizeIs(b: Bytes, max: nat)
    ensures Sanitize(b, max) == if |Printables(b)| <= max then Printables(b) else Printables(b)[..max]
    decreases |b|
  {
    if b != [] {
      if 32 <= b[0] <= 126 {
        if max > 0 {
          SanitizeIs(b[1..], max - 1);
          assert ([b[0]] + Printables(b[1..]))[..1] == [b[0]];
        }
      } else {
        SanitizeIs(b[1..], max);
      }
    }
  }

  /** What the server learns: the name of the terminal, or the size of the window, high byte first. */
  function Learned(m: Meta, payload: Bytes): Meta {
    if |payload| > 64 then m
    else if |payload| >= 2 && payload[0] == 24 && payload[1] == 0 then
      var name := Printables(payload[2..]);
      m.(terminalType := if |name| <= 40 then name else name[..40])
    else if |payload| >= 5 && payload[0] == 31 then
      m.(width := 256 * (payload[1] as int) + payload[2], height := 256 * (payload[3] as int) + payload[4])
    else m
  }

  /** A subnegotiation of any payload, of which more than 64 bytes are too much. */
  lemma {:induction false} SubnegotiationIsRead(s: State, payload: Bytes)
    requires s.framing == Data
    ensures var out := Fed(s, [255, 250] + (Doubled(payload) + [255, 240]));
            && out.data == [] && out.reply == []
            && out.state.framing == Data && out.state.meta == Learned(s.meta.(negotiated := true), payload)
            && out.state.weWill == s.weWill && out.state.weDo == s.weDo && out.state.silent == s.silent
            && out.state.ttypeRequested == s.ttypeRequested && out.state.afterCR == s.afterCR
  {
    var begun := s.(framing := Sub, sb := [], sbOverflow := false, meta := s.meta.(negotiated := true));
    FedPair(s, 255, 250);
    FedTwice(s, [255, 250], Doubled(payload) + [255, 240]);
    PayloadEnds(begun, payload);
  }

  lemma {:induction false} PayloadEnds(s: State, payload: Bytes)
    requires s.framing == Sub && s.sb == [] && !s.sbOverflow
    ensures var out := Fed(s, Doubled(payload) + [255, 240]);
            && out.data == [] && out.reply == []
            && out.state.framing == Data && out.state.meta == Learned(s.meta, payload)
            && out.state.weWill == s.weWill && out.state.weDo == s.weDo && out.state.silent == s.silent
            && out.state.ttypeRequested == s.ttypeRequested && out.state.afterCR == s.afterCR
  {
    PayloadIsKept(s, payload);
    assert s.sb + payload == payload;
    var full := s.(sb := if |payload| <= 64 then payload else payload[..64], sbOverflow := |payload| > 64);
    FedTwice(s, Doubled(payload), [255, 240]);
    EndIsRead(full, payload);
  }

  lemma {:induction false} EndIsRead(s: State, payload: Bytes)
    requires s.framing == Sub && s.sbOverflow == (|payload| > 64) && (|payload| <= 64 ==> s.sb == payload)
    ensures Fed(s, [255, 240]) == Output(s.(framing := Data, meta := Learned(s.meta, payload)), [], [])
  {
    FedPair(s, 255, 240);
    EndIsLearned(s, payload);
    var t := s.(framing := SubCommand);
    assert EndSub(t) == t.(meta := EndSub(t).meta);
  }

  /** The buffer holds what has come, up to 64 bytes. */
  lemma {:induction false} PayloadIsKept(s: State, payload: Bytes)
    requires s.framing == Sub && |s.sb| <= 64
    ensures Fed(s, Doubled(payload)) == Output(Buffered(s, s.sb + payload), [], [])
    decreases |payload|
  {
    if payload == [] {
      assert s.sb + payload == s.sb;
    } else {
      var b, rest := payload[0], payload[1..];
      var first: Bytes := if b == 255 then [255, 255] else [b];
      var t := Buffered(s, s.sb + [b]);
      ByteIsKept(s, b);
      FedTwice(s, first, Doubled(rest));
      PayloadIsKept(t, rest);
      assert payload == [b] + rest;
      BufferedTwice(s, b, rest);
    }
  }

  function Buffered(s: State, all: Bytes): State {
    s.(sb := if |all| <= 64 then all else all[..64], sbOverflow := s.sbOverflow || |all| > 64)
  }

  lemma {:induction false} ByteIsKept(s: State, b: Byte)
    requires s.framing == Sub && |s.sb| <= 64
    ensures Fed(s, if b == 255 then [255, 255] else [b]) == Output(Buffered(s, s.sb + [b]), [], [])
  {
    assert |s.sb| == 64 ==> (s.sb + [b])[..64] == s.sb;
    if b == 255 {
      FedPair(s, 255, 255);
    } else {
      FedOne(s, b);
    }
  }

  lemma {:induction false} BufferedTwice(s: State, b: Byte, rest: Bytes)
    requires |s.sb| <= 64
    ensures var t := Buffered(s, s.sb + [b]);
            Buffered(t, t.sb + rest) == Buffered(s, s.sb + ([b] + rest))
  {
    var t, all := Buffered(s, s.sb + [b]), s.sb + ([b] + rest);
    assert all == s.sb + [b] + rest;
    if |s.sb| == 64 {
      assert t.sb == s.sb;
      assert (s.sb + rest)[..64] == s.sb == all[..64];
      assert s.sb + [] == s.sb;
    }
  }

  lemma {:induction false} EndIsLearned(s: State, payload: Bytes)
    requires s.framing == Sub && s.sbOverflow == (|payload| > 64) && (|payload| <= 64 ==> s.sb == payload)
    ensures EndSub(s.(framing := SubCommand)).meta == Learned(s.meta, payload)
  {
    if |payload| >= 2 {
      SanitizeIs(payload[2..], 40);
    }
  }

  // ----- what was said agrees with what is believed -----

  /** A listener to the server: which options it has said it uses, and which it has asked for. */
  datatype Heard = Heard(frame: Frame, will: set<Byte>, asked: set<Byte>)

  function HearByte(h: Heard, b: Byte): Heard {
    var f := NextFrame(h.frame, b);
    if !h.frame.framing.Option? then h.(frame := f)
    else if h.frame.verb == 251 then h.(frame := f, will := h.will + {b})
    else if h.frame.verb == 252 then h.(frame := f, will := h.will - {b})
    else if h.frame.verb == 253 then h.(frame := f, asked := h.asked + {b})
    else h.(frame := f, asked := h.asked - {b})
  }

  function Hear(h: Heard, bytes: Bytes): Heard
    decreases |bytes|
  {
    if bytes == [] then h else Hear(HearByte(h, bytes[0]), bytes[1..])
  }

  lemma {:induction false} HearBoth(h: Heard, a: Bytes, b: Bytes)
    ensures Hear(h, a + b) == Hear(Hear(h, a), b)
    decreases |a|
  {
    if a == [] {
      assert a + b == b;
    } else {
      assert (a + b)[1..] == a[1..] + b;
      HearBoth(HearByte(h, a[0]), a[1..], b);
    }
  }

  lemma {:induction false} HearCommand(h: Heard, verb: Byte, opt: Byte)
    requires h.frame.framing.Data? && 251 <= verb <= 254
    ensures var g := Hear(h, [255, verb, opt]);
            && g.frame.framing.Data?
            && g.will == (if verb == 251 then h.will + {opt} else if verb == 252 then h.will - {opt} else h.will)
            && g.asked == (if verb == 253 then h.asked + {opt} else if verb == 254 then h.asked - {opt} else h.asked)
  {
    var h1 := HearByte(h, 255);
    var h2 := HearByte(h1, verb);
    assert [255, verb, opt][1..] == [verb, opt] && [verb, opt][1..] == [opt] && [opt][1..] == [];
    assert Hear(h2, [opt]) == HearByte(h2, opt);
  }

  lemma {:induction false} HearRequest(h: Heard)
    requires h.frame.framing.Data?
    ensures var g := Hear(h, [255, 250, 24, 1, 255, 240]);
            g.frame.framing.Data? && g.will == h.will && g.asked == h.asked
  {
    var bytes: Bytes := [255, 250, 24, 1, 255, 240];
    var h1 := HearByte(h, 255);
    var h2 := HearByte(h1, 250);
    var h3 := HearByte(HearByte(h2, 24), 1);
    assert bytes[1..] == [250, 24, 1, 255, 240] && bytes[1..][1..] == [24, 1, 255, 240];
    assert [24, 1, 255, 240][1..] == [1, 255, 240] && [1, 255, 240][1..] == [255, 240] && [255, 240][1..] == [240];
    assert Hear(h3, [255, 240]) == Hear(HearByte(h3, 255), [240]);
    assert [240][1..] == [];
    assert Hear(HearByte(h3, 255), [240]) == HearByte(HearByte(h3, 255), 240);
  }

  /** The options that the client refuses in a stream. */
  function Refused(f: Frame, bytes: Bytes): set<Byte>
    decreases |bytes|
  {
    if bytes == [] then {}
    else (if f.framing.Option? && f.verb == 252 then {bytes[0]} else {}) + Refused(NextFrame(f, bytes[0]), bytes[1..])
  }

  /** The server uses what it said it uses, and expects what it asked for, unless the client refused it. */
  predicate Agrees(s: State, h: Heard, refused: set<Byte>) {
    && h.frame.framing.Data? && s.weWill <= {1, 3} && s.weDo <= {24, 31}
    && h.will == s.weWill && s.weDo <= h.asked && h.asked <= s.weDo + refused
  }

  lemma {:induction false} StepAgrees(s: State, h: Heard, refused: set<Byte>, b: Byte)
    requires !s.silent && Agrees(s, h, refused)
    ensures Agrees(Step(s, b).state, Hear(h, Step(s, b).reply),
              refused + if s.framing == Option && s.verb == 252 then {b} else {})
  {
    if s.framing == Option {
      OptionAgrees(s, h, refused, b);
    } else if s.framing == SubCommand {
      assert Step(s, b) == SubStep(s, b);
    }
  }

  lemma {:induction false} OptionAgrees(s: State, h: Heard, refused: set<Byte>, b: Byte)
    requires !s.silent && Agrees(s, h, refused) && s.framing == Option
    ensures Agrees(Step(s, b).state, Hear(h, Step(s, b).reply), refused + if s.verb == 252 then {b} else {})
  {
    if s.verb == 253 {
      HearCommand(h, 251, b);
      HearCommand(h, 252, b);
    } else if s.verb == 254 {
      HearCommand(h, 252, b);
    } else if s.verb == 251 && (b == 24 || b == 31) {
      AskedAgrees(s, h, refused, b);
      assert refused + {} == refused;
    } else if s.verb == 251 {
      HearCommand(h, 254, b);
    }
  }

  lemma {:induction false} AskedAgrees(s: State, h: Heard, refused: set<Byte>, b: Byte)
    requires !s.silent && Agrees(s, h, refused) && s.framing == Option && s.verb == 251 && (b == 24 || b == 31)
    ensures Agrees(Step(s, b).state, Hear(h, Step(s, b).reply), refused)
  {
    var ask: Bytes := if b in s.weDo then [] else [255, 253, b];
    var request: Bytes := if b == 24 && !s.ttypeRequested then [255, 250, 24, 1, 255, 240] else [];
    assert Step(s, b).reply == ask + request;
    HearCommand(h, 253, b);
    HearBoth(h, ask, request);
    HearRequest(Hear(h, ask));
  }

  /** Whatever the client sends, what the server has said and what it believes agree. */
  lemma {:induction false} StreamAgrees(s: State, h: Heard, refused: set<Byte>, chunk: Bytes)
    requires !s.silent && Agrees(s, h, refused)
    ensures var out := Fed(s, chunk);
            Agrees(out.state, Hear(h, out.reply), refused + Refused(FrameOf(s), chunk))
    decreases |chunk|
  {
    if chunk != [] {
      var b := chunk[0];
      var first := Step(s, b);
      StepFrame(s, b);
      StepAgrees(s, h, refused, b);
      var more := if s.framing == Option && s.verb == 252 then {b} else {};
      StreamAgrees(first.state, Hear(h, first.reply), refused + more, chunk[1..]);
      HearBoth(h, first.reply, Fed(first.state, chunk[1..]).reply);
      assert refused + more + Refused(FrameOf(first.state), chunk[1..]) == refused + Refused(FrameOf(s), chunk);
    }
  }

  /** A whole connection: the opening, when nothing has been heard yet, and then anything. */
  lemma {:induction false} ConnectionAgrees(chunk: Bytes)
    ensures var s := Opening(Fresh(false)).0;
            AtData(s) && Listening(s) && !s.ttypeRequested && s.meta == Meta(false, [], [], 0, 0)
    ensures var (s, opening) := Opening(Fresh(false));
            var out := Fed(s, chunk);
            Agrees(out.state, Hear(Heard(Frame(Data, 0), {}, {}), opening + out.reply), Refused(FrameOf(s), chunk))
  {
    var (s, opening) := Opening(Fresh(false));
    var h := Heard(Frame(Data, 0), {}, {});
    var a: Bytes, b: Bytes, c: Bytes, d: Bytes := [255, 251, 1], [255, 251, 3], [255, 253, 24], [255, 253, 31];
    assert opening == a + (b + (c + d));
    HearCommand(h, 251, 1);
    HearCommand(Hear(h, a), 251, 3);
    HearCommand(Hear(Hear(h, a), b), 253, 24);
    HearCommand(Hear(Hear(Hear(h, a), b), c), 253, 31);
    HearBoth(h, a, b + (c + d));
    HearBoth(Hear(h, a), b, c + d);
    HearBoth(Hear(Hear(h, a), b), c, d);
    StreamAgrees(s, Hear(h, opening), {}, chunk);
    HearBoth(h, opening, Fed(s, chunk).reply);
    assert {} + Refused(FrameOf(s), chunk) == Refused(FrameOf(s), chunk);
  }
}
