// Two negotiators that answer each other always go quiet (RFC 854, General
// Considerations): whatever their options are and however the bytes between
// them are cut, every delivery lowers one number.

module TelnetQuiet {
  import opened Wrappers
  import opened Telnet

  // ----- the framing of a stream, and what it still weighs -----

  /** Where a byte leaves the receiver's framing, and the command verb it has last read. */
  datatype Frame = Frame(framing: Framing, verb: Byte)

  function FrameOf(s: State): Frame {
    Frame(s.framing, s.verb)
  }

  function NextFrame(f: Frame, b: Byte): Frame {
    match f.framing
    case Data => if b == IAC then f.(framing := Command) else f
    case Command =>
      if b == WILL || b == WONT || b == DO || b == DONT then Frame(Option, b)
      else if b == SB then f.(framing := Sub)
      else f.(framing := Data)
    case Option => f.(framing := Data)
    case Sub => if b == IAC then f.(framing := SubCommand) else f
    case SubCommand => if b == SE then f.(framing := Data) else f.(framing := Sub)
  }

  /** More than all that an answer to the command, an answer to that, and so on can weigh. */
  function Weight(verb: Byte, opt: Byte): nat {
    if verb == DO then (if opt == OPT_ECHO || opt == OPT_SGA then 4 else 2)
    else if verb == WILL then 3
    else if verb == DONT then 2
    else 1
  }

  function ByteWeight(f: Frame, b: Byte): nat {
    if f.framing.Option? then Weight(f.verb, b) else 0
  }

  /** What the commands weigh that the bytes complete. */
  function StreamWeight(f: Frame, bytes: Bytes): nat
    decreases |bytes|
  {
    if bytes == [] then 0 else ByteWeight(f, bytes[0]) + StreamWeight(NextFrame(f, bytes[0]), bytes[1..])
  }

  function FrameAfter(f: Frame, bytes: Bytes): Frame
    decreases |bytes|
  {
    if bytes == [] then f else FrameAfter(NextFrame(f, bytes[0]), bytes[1..])
  }

  lemma {:induction false} WeightOfBoth(f: Frame, a: Bytes, b: Bytes)
    ensures StreamWeight(f, a + b) == StreamWeight(f, a) + StreamWeight(FrameAfter(f, a), b)
    ensures FrameAfter(f, a + b) == FrameAfter(FrameAfter(f, a), b)
    decreases |a|
  {
    if a == [] {
      assert a + b == b;
    } else {
      assert (a + b)[1..] == a[1..] + b;
      WeightOfBoth(NextFrame(f, a[0]), a[1..], b);
    }
  }

  lemma {:induction false} WeightOfByte(f: Frame, b: Byte, rest: Bytes)
    ensures StreamWeight(f, [b] + rest) == ByteWeight(f, b) + StreamWeight(NextFrame(f, b), rest)
    ensures FrameAfter(f, [b] + rest) == FrameAfter(NextFrame(f, b), rest)
  {
    assert ([b] + rest)[1..] == rest;
  }

  /**
   A whole command on a quiet line: what it weighs, and the line is quiet
   again. The verb left behind does not matter.
   */
  lemma {:induction false} WeightOfCommand(f: Frame, verb: Byte, opt: Byte)
    requires f.framing.Data? && (verb == WILL || verb == WONT || verb == DO || verb == DONT)
    ensures StreamWeight(f, [IAC, verb, opt]) == Weight(verb, opt)
    ensures FrameAfter(f, [IAC, verb, opt]) == Frame(Data, verb)
  {
    var g := NextFrame(f, IAC);
    assert [IAC, verb, opt] == [IAC] + ([verb] + ([opt] + []));
    WeightOfByte(Frame(Option, verb), opt, []);
    WeightOfByte(g, verb, [opt] + []);
    WeightOfByte(f, IAC, [verb] + ([opt] + []));
  }

  /** The request for the terminal type asks for no answer that this protocol sends. */
  lemma {:induction false} WeightOfRequest(f: Frame)
    requires f.framing.Data?
    ensures StreamWeight(f, [IAC, SB, OPT_TTYPE, TTYPE_SEND, IAC, SE]) == 0
    ensures FrameAfter(f, [IAC, SB, OPT_TTYPE, TTYPE_SEND, IAC, SE]).framing.Data?
  {
    var end: Bytes := [IAC] + ([SE] + []);
    var body: Bytes := [OPT_TTYPE] + ([TTYPE_SEND] + end);
    assert [IAC, SB, OPT_TTYPE, TTYPE_SEND, IAC, SE] == [IAC] + ([SB] + body);
    var sub := f.(framing := Sub);
    WeightOfByte(f, IAC, [SB] + body);
    WeightOfByte(f.(framing := Command), SB, body);
    WeightOfByte(sub, OPT_TTYPE, [TTYPE_SEND] + end);
    WeightOfByte(sub, TTYPE_SEND, end);
    WeightOfByte(sub, IAC, [SE] + []);
    WeightOfByte(f.(framing := SubCommand), SE, []);
  }

  // ----- an answer weighs less than what it answers -----

  const MAX_REPLY := 9

  /** `reply` is whole commands, and weighs at most `w`. */
  predicate Light(reply: Bytes, w: nat) {
    && |reply| <= MAX_REPLY
    && forall verb: Byte :: LightFrom(Frame(Data, verb), reply, w)
  }

  predicate LightFrom(f: Frame, reply: Bytes, w: nat) {
    StreamWeight(f, reply) <= w && FrameAfter(f, reply).framing.Data?
  }

  lemma {:induction false} AnswerIsLighter(s: State, verb: Byte, opt: Byte)
    ensures Light(Negotiate(s, verb, opt).1, Weight(verb, opt) - 1)
  {
    var reply := Negotiate(s, verb, opt).1;
    forall v: Byte
      ensures LightFrom(Frame(Data, v), reply, Weight(verb, opt) - 1)
    {
      AnswerIsLighterFrom(s, verb, opt, Frame(Data, v));
    }
  }

  lemma {:induction false} AnswerIsLighterFrom(s: State, verb: Byte, opt: Byte, f: Frame)
    requires f.framing.Data?
    ensures LightFrom(f, Negotiate(s, verb, opt).1, Weight(verb, opt) - 1)
  {
    var reply := Negotiate(s, verb, opt).1;
    if verb == WILL && (opt == OPT_TTYPE || opt == OPT_NAWS) {
      var ask: Bytes := if opt !in s.weDo then [IAC, DO, opt] else [];
      WeightOfCommand(f, DO, opt);
      assert LightFrom(f, ask, 2);
      if opt == OPT_TTYPE && !s.ttypeRequested {
        var request := [IAC, SB, OPT_TTYPE, TTYPE_SEND, IAC, SE];
        WeightOfRequest(FrameAfter(f, ask));
        WeightOfBoth(f, ask, request);
        assert reply == ask + request;
      } else {
        assert reply == ask + [] == ask;
      }
    } else if reply != [] {
      WeightOfCommand(f, reply[1], opt);
      assert reply == [IAC, reply[1], opt];
    }
  }

  // ----- feeding -----

  /** Bytes in flight to a receiver in state `s` are whole commands. */
  predicate Aligned(s: State, inFlight: Bytes) {
    FrameAfter(FrameOf(s), inFlight).framing.Data?
  }

  lemma {:induction false} CommandFrame(s: State, b: Byte)
    requires s.framing.Command?
    ensures FrameOf(CommandStep(s, b).state) == NextFrame(FrameOf(s), b) && CommandStep(s, b).state.silent == s.silent
  {
  }

  lemma {:induction false} OptionFrame(s: State, b: Byte)
    requires s.framing.Option?
    ensures FrameOf(OptionStep(s, b).state) == NextFrame(FrameOf(s), b) && OptionStep(s, b).state.silent == s.silent
  {
    var t := Negotiate(s, s.verb, b).0;
    assert t.verb == s.verb && t.silent == s.silent;
  }

  lemma {:induction false} SubFrame(s: State, b: Byte)
    requires s.framing.SubCommand?
    ensures FrameOf(SubStep(s, b).state) == NextFrame(FrameOf(s), b) && SubStep(s, b).state.silent == s.silent
  {
  }

  lemma {:induction false} StepFrame(s: State, b: Byte)
    ensures FrameOf(Step(s, b).state) == NextFrame(FrameOf(s), b)
    ensures Step(s, b).state.silent == s.silent
  {
    if s.framing.Command? {
      CommandFrame(s, b);
    } else if s.framing.Option? {
      OptionFrame(s, b);
    } else if s.framing.SubCommand? {
      SubFrame(s, b);
    }
  }

  lemma {:induction false} StepIsLighter(s: State, b: Byte)
    requires !s.silent
    ensures var w, reply := ByteWeight(FrameOf(s), b), Step(s, b).reply;
            if w == 0 then reply == [] else Light(reply, w - 1)
  {
    if s.framing.Option? {
      AnswerIsLighter(s, s.verb, b);
    }
  }

  /** The number that deliveries lower: sixteen for each unit of weight, and one for each byte. */
  function Measure(f: Frame, bytes: Bytes): nat {
    16 * StreamWeight(f, bytes) + |bytes|
  }

  /** Feeding a chunk costs the receiver at least its bytes, answers included; the answers are whole commands. */
  lemma {:induction false} FeedIsLighter(s: State, chunk: Bytes, f: Frame)
    requires !s.silent && f.framing.Data?
    ensures var out := Fed(s, chunk);
            && Measure(f, out.reply) + (if chunk == [] then 0 else 1) <= Measure(FrameOf(s), chunk)
            && FrameAfter(f, out.reply).framing.Data?
            && FrameOf(out.state) == FrameAfter(FrameOf(s), chunk) && !out.state.silent
    decreases |chunk|
  {
    if chunk != [] {
      var b, rest := chunk[0], chunk[1..];
      var first := Step(s, b);
      StepFrame(s, b);
      StepIsLighter(s, b);
      var w := ByteWeight(FrameOf(s), b);
      var g := FrameAfter(f, first.reply);
      if w == 0 {
        assert g == f && Measure(f, first.reply) == 0;
      } else {
        assert LightFrom(Frame(Data, f.verb), first.reply, w - 1);
        assert Measure(f, first.reply) + 1 <= 16 * w;
      }
      FeedIsLighter(first.state, rest, g);
      WeightOfBoth(f, first.reply, Fed(first.state, rest).reply);
      assert chunk == [b] + rest;
      WeightOfByte(FrameOf(s), b, rest);
    }
  }

  // ----- two of them, joined by two streams -----

  datatype Joint = Joint(a: State, b: State, toA: Bytes, toB: Bytes)

  /** Deliver the first `n` bytes in flight to one side; what it answers goes into the other stream. */
  datatype Delivery = Delivery(toA: bool, n: nat)

  predicate Possible(j: Joint, d: Delivery) {
    0 < d.n <= (if d.toA then |j.toA| else |j.toB|)
  }

  function Delivered(j: Joint, d: Delivery): Joint
    requires Possible(j, d)
  {
    if d.toA then
      var out := Fed(j.a, j.toA[..d.n]);
      j.(a := out.state, toA := j.toA[d.n..], toB := j.toB + out.reply)
    else
      var out := Fed(j.b, j.toB[..d.n]);
      j.(b := out.state, toB := j.toB[d.n..], toA := j.toA + out.reply)
  }

  predicate Whole(j: Joint) {
    !j.a.silent && !j.b.silent && Aligned(j.a, j.toA) && Aligned(j.b, j.toB)
  }

  function Left(j: Joint): nat {
    Measure(FrameOf(j.a), j.toA) + Measure(FrameOf(j.b), j.toB)
  }

  lemma {:induction false} DeliveryLowers(j: Joint, d: Delivery)
    requires Whole(j) && Possible(j, d)
    ensures Whole(Delivered(j, d)) && Left(Delivered(j, d)) < Left(j)
  {
    if d.toA {
      OneDelivery(j.a, j.b, j.toA, j.toB, d.n);
    } else {
      OneDelivery(j.b, j.a, j.toB, j.toA, d.n);
    }
  }

  lemma {:induction false} OneDelivery(s: State, other: State, inFlight: Bytes, back: Bytes, n: nat)
    requires !s.silent && Aligned(s, inFlight) && Aligned(other, back) && 0 < n <= |inFlight|
    ensures var out := Fed(s, inFlight[..n]);
            && !out.state.silent && Aligned(out.state, inFlight[n..]) && Aligned(other, back + out.reply)
            && Measure(FrameOf(out.state), inFlight[n..]) + Measure(FrameOf(other), back + out.reply) <
               Measure(FrameOf(s), inFlight) + Measure(FrameOf(other), back)
  {
    var chunk, rest := inFlight[..n], inFlight[n..];
    var g := FrameAfter(FrameOf(other), back);
    FeedIsLighter(s, chunk, g);
    assert inFlight == chunk + rest;
    WeightOfBoth(FrameOf(s), chunk, rest);
    WeightOfBoth(FrameOf(other), back, Fed(s, chunk).reply);
  }

  predicate Run(j: Joint, ds: seq<Delivery>)
    decreases |ds|
  {
    ds != [] ==> Possible(j, ds[0]) && Run(Delivered(j, ds[0]), ds[1..])
  }

  /** However the bytes are delivered, there are only so many deliveries: the option negotiation has no loop. */
  lemma {:induction false} RunsEnd(j: Joint, ds: seq<Delivery>)
    requires Whole(j) && Run(j, ds)
    ensures |ds| <= Left(j)
    decreases |ds|
  {
    if ds != [] {
      DeliveryLowers(j, ds[0]);
      RunsEnd(Delivered(j, ds[0]), ds[1..]);
    }
  }

  lemma {:induction false} WeightOfOpening(f: Frame)
    requires f.framing.Data?
    ensures var bytes := Opening(Fresh(false)).1;
            StreamWeight(f, bytes) == 10 && |bytes| == 12 && FrameAfter(f, bytes).framing.Data?
  {
    var a: Bytes, b: Bytes, c: Bytes, d: Bytes :=
      [IAC, WILL, OPT_ECHO], [IAC, WILL, OPT_SGA], [IAC, DO, OPT_TTYPE], [IAC, DO, OPT_NAWS];
    var fa, fb, fc := Frame(Data, WILL), Frame(Data, WILL), Frame(Data, DO);
    WeightOfCommand(f, WILL, OPT_ECHO);
    WeightOfCommand(fa, WILL, OPT_SGA);
    WeightOfCommand(fb, DO, OPT_TTYPE);
    WeightOfCommand(fc, DO, OPT_NAWS);
    WeightOfBoth(fb, c, d);
    WeightOfBoth(fa, b, c + d);
    WeightOfBoth(f, a, b + (c + d));
  }

  /** Two servers that open on each other are quiet after at most 344 deliveries, whatever the chunks. */
  lemma {:induction false} OpeningsGoQuiet(ds: seq<Delivery>)
    requires var (s, bytes) := Opening(Fresh(false)); Run(Joint(s, s, bytes, bytes), ds)
    ensures |ds| <= 344
  {
    var (s, bytes) := Opening(Fresh(false));
    WeightOfOpening(FrameOf(s));
    RunsEnd(Joint(s, s, bytes, bytes), ds);
  }
}
