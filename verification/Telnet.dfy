// Telnet option negotiation (internal/telnet/negotiator.go): a byte-level
// automaton that strips commands from the data and answers them.

module Telnet {
  import opened Wrappers

  const SE: Byte := 240
  const SB: Byte := 250
  const WILL: Byte := 251
  const WONT: Byte := 252
  const DO: Byte := 253
  const DONT: Byte := 254
  const IAC: Byte := 255

  const OPT_ECHO: Byte := 1
  const OPT_SGA: Byte := 3
  const OPT_TTYPE: Byte := 24
  const OPT_NAWS: Byte := 31

  const CR: Byte := 13
  const TTYPE_IS: Byte := 0
  const TTYPE_SEND: Byte := 1

  const MAX_SUBNEGOTIATION := 64
  const MAX_RECORDED_OPTIONS := 32
  const MAX_TERMINAL_TYPE := 40

  datatype Framing = Data | Command | Option | Sub | SubCommand

  datatype Meta = Meta(
    negotiated: bool, clientWill: Bytes, terminalType: Bytes, width: nat, height: nat)

  datatype State = State(
    silent: bool, framing: Framing, verb: Byte, sb: Bytes, sbOverflow: bool, afterCR: bool,
    weWill: set<Byte>, weDo: set<Byte>, ttypeRequested: bool, meta: Meta)

  const NO_META := Meta(false, [], [], 0, 0)

  function Fresh(silent: bool): State {
    State(silent, Data, 0, [], false, false, {}, {}, false, NO_META)
  }

  function Opening(s: State): (State, Bytes) {
    if s.silent then (s, [IAC, DO, OPT_ECHO, IAC, DO, OPT_NAWS, IAC, WILL, OPT_ECHO, IAC, WILL, OPT_SGA])
    else
      (s.(weWill := s.weWill + {OPT_ECHO, OPT_SGA}, weDo := s.weDo + {OPT_TTYPE, OPT_NAWS}),
       [IAC, WILL, OPT_ECHO] + ([IAC, WILL, OPT_SGA] + ([IAC, DO, OPT_TTYPE] + [IAC, DO, OPT_NAWS])))
  }

  // ----- one command -----

  function WithWill(m: Meta, opt: Byte): Meta {
    if opt in m.clientWill || |m.clientWill| >= MAX_RECORDED_OPTIONS then m
    else m.(clientWill := m.clientWill + [opt])
  }

  function Negotiate(s: State, verb: Byte, opt: Byte): (State, Bytes) {
    if verb == DO then
      if opt == OPT_ECHO || opt == OPT_SGA then
        if opt in s.weWill then (s, []) else (s.(weWill := s.weWill + {opt}), [IAC, WILL, opt])
      else (s, [IAC, WONT, opt])
    else if verb == DONT then
      (if opt in s.weWill then (s.(weWill := s.weWill - {opt}), [IAC, WONT, opt]) else (s, []))
    else if verb == WILL then
      var t := s.(meta := WithWill(s.meta, opt));
      if opt == OPT_TTYPE || opt == OPT_NAWS then
        var ask := opt !in s.weDo;
        var request := opt == OPT_TTYPE && !s.ttypeRequested;
        (t.(weDo := t.weDo + {opt}, ttypeRequested := s.ttypeRequested || request),
         (if ask then [IAC, DO, opt] else []) +
         (if request then [IAC, SB, OPT_TTYPE, TTYPE_SEND, IAC, SE] else []))
      else (t, [IAC, DONT, opt])
    else if verb == WONT then (s.(weDo := s.weDo - {opt}), [])
    else (s, [])
  }

  function WithSub(s: State, b: Byte): State {
    if |s.sb| >= MAX_SUBNEGOTIATION then s.(sbOverflow := true) else s.(sb := s.sb + [b])
  }

  /** The printable characters of `b`, up to `max` of them. */
  function Sanitize(b: Bytes, max: nat): Bytes {
    if b == [] || max == 0 then []
    else if 0x20 <= b[0] <= 0x7E then [b[0]] + Sanitize(b[1..], max - 1)
    else Sanitize(b[1..], max)
  }

  function Word(high: int, low: int): int {
    high * 256 + low
  }

  function EndSub(s: State): State {
    if s.sbOverflow || s.sb == [] then s
    else if s.sb[0] == OPT_TTYPE && |s.sb| >= 2 && s.sb[1] == TTYPE_IS then
      s.(meta := s.meta.(terminalType := Sanitize(s.sb[2..], MAX_TERMINAL_TYPE)))
    else if s.sb[0] == OPT_NAWS && |s.sb| >= 5 then
      s.(meta := s.meta.(width := Word(s.sb[1], s.sb[2]), height := Word(s.sb[3], s.sb[4])))
    else s
  }

  // ----- one byte -----

  datatype Output = Output(state: State, data: Bytes, reply: Bytes)

  function Step(s: State, b: Byte): Output {
    match s.framing
    case Data => DataStep(s, b)
    case Command => CommandStep(s, b)
    case Option => OptionStep(s, b)
    case Sub => if b == IAC then Output(s.(framing := SubCommand), [], []) else Output(WithSub(s, b), [], [])
    case SubCommand => SubStep(s, b)
  }

  function DataStep(s: State, b: Byte): Output {
    if b == IAC then Output(s.(framing := Command), [], [])
    else if s.afterCR && b == 0 then Output(s.(afterCR := false), [], [])
    else Output(s.(afterCR := b == CR), [b], [])
  }

  function CommandStep(s: State, b: Byte): Output {
    var t := s.(meta := s.meta.(negotiated := true));
    if b == IAC then Output(t.(afterCR := false, framing := Data), [IAC], [])
    else if b == WILL || b == WONT || b == DO || b == DONT then Output(t.(verb := b, framing := Option), [], [])
    else if b == SB then Output(t.(sb := [], sbOverflow := false, framing := Sub), [], [])
    else Output(t.(framing := Data), [], [])
  }

  function OptionStep(s: State, b: Byte): Output {
    if s.silent then
      Output(s.(meta := if s.verb == WILL then WithWill(s.meta, b) else s.meta, framing := Data), [], [])
    else
      var (t, reply) := Negotiate(s, s.verb, b);
      Output(t.(framing := Data), [], reply)
  }

  function SubStep(s: State, b: Byte): Output {
    if b == SE then Output(EndSub(s).(framing := Data), [], [])
    else if b == IAC then Output(WithSub(s, IAC).(framing := Sub), [], [])
    else Output(s.(framing := Sub), [], [])
  }

  /** A whole chunk. */
  function Fed(s: State, chunk: Bytes): Output
    decreases |chunk|
  {
    if chunk == [] then Output(s, [], [])
    else
      var first := Step(s, chunk[0]);
      Then(first, Fed(first.state, chunk[1..]))
  }

  /** One output after another. */
  function Then(a: Output, b: Output): Output {
    Output(b.state, a.data + b.data, a.reply + b.reply)
  }

  lemma {:induction false} ThenTwice(a: Output, b: Output, c: Output)
    ensures Then(Then(a, b), c) == Then(a, Then(b, c))
  {
    assert a.data + (b.data + c.data) == a.data + b.data + c.data;
    assert a.reply + (b.reply + c.reply) == a.reply + b.reply + c.reply;
  }

  lemma {:induction false} FedCons(s: State, c: Byte, rest: Bytes, first: Output)
    requires first == Step(s, c)
    ensures Fed(s, [c] + rest) == Then(first, Fed(first.state, rest))
  {
    assert ([c] + rest)[1..] == rest;
  }

  /** It does not matter how the bytes are cut into chunks. */
  lemma {:induction false} FedTwice(s: State, a: Bytes, b: Bytes)
    ensures var x := Fed(s, a);
            Fed(s, a + b) == Then(x, Fed(x.state, b))
    decreases |a|, 0
  {
    if a == [] {
      assert a + b == b;
    } else {
      var c, rest := a[0], a[1..];
      assert a == [c] + rest && a + b == [c] + (rest + b);
      FedAhead(s, c, rest, b, Step(s, c));
    }
  }

  lemma {:induction false} FedAhead(s: State, c: Byte, rest: Bytes, b: Bytes, first: Output)
    requires first == Step(s, c)
    ensures var x := Fed(s, [c] + rest);
            Fed(s, [c] + (rest + b)) == Then(x, Fed(x.state, b))
    decreases |rest|, 1
  {
    FedTwice(first.state, rest, b);
    FedCons(s, c, rest, first);
    FedCons(s, c, rest + b, first);
    var y := Fed(first.state, rest);
    ThenTwice(first, y, Fed(y.state, b));
  }

  /** All the chunks of a stream, one after another. */
  function FedAll(s: State, chunks: seq<Bytes>): Output
    decreases |chunks|
  {
    if chunks == [] then Output(s, [], [])
    else
      var first := Fed(s, chunks[0]);
      var rest := FedAll(first.state, chunks[1..]);
      Output(rest.state, first.data + rest.data, first.reply + rest.reply)
  }

  function Joined(chunks: seq<Bytes>): Bytes {
    if chunks == [] then [] else chunks[0] + Joined(chunks[1..])
  }

  lemma {:induction false} ChunksDoNotMatter(s: State, chunks: seq<Bytes>)
    ensures FedAll(s, chunks) == Fed(s, Joined(chunks))
    decreases |chunks|
  {
    if chunks != [] {
      ChunksDoNotMatter(Fed(s, chunks[0]).state, chunks[1..]);
      FedTwice(s, chunks[0], Joined(chunks[1..]));
    }
  }

  // ----- data comes through -----

  /** What a client sends for data: IAC doubled, and NUL after a carriage return. */
  function Escaped(data: Bytes): Bytes {
    if data == [] then [] else EscapedByte(data[0]) + Escaped(data[1..])
  }

  function EscapedByte(b: Byte): Bytes {
    if b == IAC then [IAC, IAC] else if b == CR then [CR, 0] else [b]
  }

  predicate AtData(s: State) {
    s.framing == Data && !s.afterCR
  }

  lemma {:induction false} FedOne(s: State, b: Byte)
    ensures Fed(s, [b]) == Step(s, b)
  {
    assert Fed(Step(s, b).state, []) == Output(Step(s, b).state, [], []);
    assert [b][1..] == [];
  }

  lemma {:induction false} FedPair(s: State, a: Byte, b: Byte)
    ensures var x := Step(s, a);
            var y := Step(x.state, b);
            Fed(s, [a, b]) == Output(y.state, x.data + y.data, x.reply + y.reply)
  {
    FedOne(s, a);
    FedOne(Step(s, a).state, b);
    FedTwice(s, [a], [b]);
    assert [a] + [b] == [a, b];
  }

  /** The data arrived, and nothing else happened. */
  predicate Arrived(s: State, out: Output, data: Bytes) {
    && out.data == data && out.reply == [] && AtData(out.state)
    && out.state.weWill == s.weWill && out.state.weDo == s.weDo
  }

  lemma {:induction false} ByteComesBack(s: State, b: Byte)
    requires AtData(s)
    ensures Arrived(s, Fed(s, EscapedByte(b)), [b])
  {
    if b == IAC {
      FedPair(s, IAC, IAC);
    } else if b == CR {
      FedPair(s, CR, 0);
    } else {
      FedOne(s, b);
    }
  }

  /** Any data, sent escaped, arrives as it was, draws no reply and leaves the options alone. */
  lemma {:induction false} EscapedDataComesBack(s: State, data: Bytes)
    requires AtData(s)
    ensures Arrived(s, Fed(s, Escaped(data)), data)
    decreases |data|
  {
    if data != [] {
      var first, rest := EscapedByte(data[0]), data[1..];
      ByteComesBack(s, data[0]);
      EscapedDataComesBack(Fed(s, first).state, rest);
      FedTwice(s, first, Escaped(rest));
      assert [data[0]] + rest == data;
    }
  }

  // ----- what is recorded stays bounded -----

  predicate NoRepeats(b: Bytes) {
    forall i, j :: 0 <= i < j < |b| ==> b[i] != b[j]
  }

  predicate Printable(b: Bytes) {
    forall i :: 0 <= i < |b| ==> 0x20 <= b[i] <= 0x7E
  }

  predicate Bounded(s: State) {
    && |s.sb| <= MAX_SUBNEGOTIATION
    && |s.meta.clientWill| <= MAX_RECORDED_OPTIONS && NoRepeats(s.meta.clientWill)
    && |s.meta.terminalType| <= MAX_TERMINAL_TYPE && Printable(s.meta.terminalType)
    && s.meta.width < 0x1_0000 && s.meta.height < 0x1_0000
  }

  lemma {:induction false} SanitizeIsPrintable(b: Bytes, max: nat)
    ensures |Sanitize(b, max)| <= max && Printable(Sanitize(b, max))
    decreases |b|
  {
    if b != [] && max > 0 {
      SanitizeIsPrintable(b[1..], if 0x20 <= b[0] <= 0x7E then max - 1 else max);
    }
  }

  lemma {:induction false} SubKeepsBounds(s: State, b: Byte)
    requires Bounded(s)
    ensures Bounded(SubStep(s, b).state)
  {
    if b == SE && |s.sb| >= 2 {
      SanitizeIsPrintable(s.sb[2..], MAX_TERMINAL_TYPE);
    } else if b == IAC {
      WithSubKeepsBounds(s, IAC);
    }
  }

  lemma {:induction false} OptionKeepsBounds(s: State, b: Byte)
    requires Bounded(s)
    ensures Bounded(OptionStep(s, b).state)
  {
    var m := WithWill(s.meta, b);
    assert NoRepeats(m.clientWill);
  }

  lemma {:induction false} WithSubKeepsBounds(s: State, b: Byte)
    requires Bounded(s)
    ensures Bounded(WithSub(s, b))
  {
  }

  lemma {:induction false} CommandKeepsBounds(s: State, b: Byte)
    requires Bounded(s)
    ensures Bounded(CommandStep(s, b).state)
  {
  }

  lemma {:induction false} StepKeepsBounds(s: State, b: Byte)
    requires Bounded(s)
    ensures Bounded(Step(s, b).state)
  {
    if s.framing.SubCommand? {
      SubKeepsBounds(s, b);
    } else if s.framing.Option? {
      OptionKeepsBounds(s, b);
    } else if s.framing.Command? {
      CommandKeepsBounds(s, b);
    } else if s.framing.Sub? {
      WithSubKeepsBounds(s, b);
    }
  }

  lemma {:induction false} FeedKeepsBounds(s: State, chunk: Bytes)
    requires Bounded(s)
    ensures Bounded(Fed(s, chunk).state)
    decreases |chunk|
  {
    if chunk != [] {
      StepKeepsBounds(s, chunk[0]);
      FeedKeepsBounds(Step(s, chunk[0]).state, chunk[1..]);
    }
  }

  // ----- the object -----

  class Negotiator {
    const silent: bool
    var framing: Framing
    var verb: Byte
    var sb: Bytes
    var sbOverflow: bool
    var afterCR: bool
    var weWill: set<Byte>
    var weDo: set<Byte>
    var ttypeRequested: bool
    var meta: Meta

    constructor (silent: bool)
      ensures View() == Fresh(silent)
    {
      this.silent := silent;
      framing, verb, sb, sbOverflow, afterCR := Data, 0, [], false, false;
      weWill, weDo, ttypeRequested, meta := {}, {}, false, NO_META;
    }

    function View(): State
      reads this
    {
      State(silent, framing, verb, sb, sbOverflow, afterCR, weWill, weDo, ttypeRequested, meta)
    }

    method Initial() returns (opening: Bytes)
      modifies this
      ensures (View(), opening) == Opening(old(View()))
    {
      if silent {
        return [IAC, DO, OPT_ECHO, IAC, DO, OPT_NAWS, IAC, WILL, OPT_ECHO, IAC, WILL, OPT_SGA];
      }
      weWill := weWill + {OPT_ECHO, OPT_SGA};
      weDo := weDo + {OPT_TTYPE, OPT_NAWS};
      opening := [IAC, WILL, OPT_ECHO] + ([IAC, WILL, OPT_SGA] + ([IAC, DO, OPT_TTYPE] + [IAC, DO, OPT_NAWS]));
    }

    method Feed(chunk: Bytes) returns (data: Bytes, reply: Bytes)
      modifies this
      ensures Output(View(), data, reply) == Fed(old(View()), chunk)
    {
      data, reply := [], [];
      for i := 0 to |chunk|
        invariant Output(View(), data, reply) == Fed(old(View()), chunk[..i])
      {
        FedOne(View(), chunk[i]);
        FedTwice(old(View()), chunk[..i], [chunk[i]]);
        assert chunk[..i + 1] == chunk[..i] + [chunk[i]];
        var d, r := FeedByte(chunk[i]);
        data, reply := data + d, reply + r;
      }
      assert chunk[..|chunk|] == chunk;
    }

    method FeedByte(b: Byte) returns (data: Bytes, reply: Bytes)
      modifies this
      ensures Output(View(), data, reply) == Step(old(View()), b)
    {
      data, reply := [], [];
      match framing
      case Data => data := FeedData(b);
      case Command => data := FeedCommand(b);
      case Option => reply := FeedOption(b);
      case Sub =>
        if b == IAC {
          framing := SubCommand;
        } else {
          AppendSub(b);
        }
      case SubCommand => FeedSub(b);
    }

    method FeedData(b: Byte) returns (data: Bytes)
      modifies this
      ensures Output(View(), data, []) == DataStep(old(View()), b)
    {
      data := [];
      if b == IAC {
        framing := Command;
      } else if afterCR && b == 0 {
        afterCR := false;
      } else {
        afterCR := b == CR;
        data := [b];
      }
    }

    method FeedCommand(b: Byte) returns (data: Bytes)
      modifies this
      ensures Output(View(), data, []) == CommandStep(old(View()), b)
    {
      data := [];
      meta := meta.(negotiated := true);
      if b == IAC {
        data := [IAC];
        afterCR, framing := false, Data;
      } else if b == WILL || b == WONT || b == DO || b == DONT {
        verb, framing := b, Option;
      } else if b == SB {
        sb, sbOverflow, framing := [], false, Sub;
      } else {
        framing := Data;
      }
    }

    method FeedOption(b: Byte) returns (reply: Bytes)
      modifies this
      ensures Output(View(), [], reply) == OptionStep(old(View()), b)
    {
      reply := [];
      if silent {
        if verb == WILL {
          RecordWill(b);
        }
      } else {
        reply := Answer(verb, b);
      }
      framing := Data;
    }

    method FeedSub(b: Byte)
      modifies this
      ensures Output(View(), [], []) == SubStep(old(View()), b)
    {
      if b == SE {
        FinishSub();
        framing := Data;
      } else {
        if b == IAC {
          AppendSub(IAC);
        }
        framing := Sub;
      }
    }

    method AppendSub(b: Byte)
      modifies this`sb, this`sbOverflow
      ensures View() == WithSub(old(View()), b)
    {
      if |sb| >= MAX_SUBNEGOTIATION {
        sbOverflow := true;
      } else {
        sb := sb + [b];
      }
    }

    method FinishSub()
      modifies this`meta
      ensures View() == EndSub(old(View()))
    {
      if sbOverflow || sb == [] {
        return;
      }
      if sb[0] == OPT_TTYPE && |sb| >= 2 && sb[1] == TTYPE_IS {
        meta := meta.(terminalType := Sanitize(sb[2..], MAX_TERMINAL_TYPE));
      } else if sb[0] == OPT_NAWS && |sb| >= 5 {
        meta := meta.(width := Word(sb[1], sb[2]), height := Word(sb[3], sb[4]));
      }
    }

    method RecordWill(opt: Byte)
      modifies this`meta
      ensures View() == old(View()).(meta := WithWill(old(meta), opt))
    {
      for i := 0 to |meta.clientWill|
        invariant meta == old(meta) && opt !in meta.clientWill[..i]
      {
        if meta.clientWill[i] == opt {
          return;
        }
      }
      assert meta.clientWill[..|meta.clientWill|] == meta.clientWill;
      if |meta.clientWill| < MAX_RECORDED_OPTIONS {
        meta := meta.(clientWill := meta.clientWill + [opt]);
      }
    }

    method Answer(verb: Byte, opt: Byte) returns (reply: Bytes)
      modifies this`weWill, this`weDo, this`ttypeRequested, this`meta
      ensures (View(), reply) == Negotiate(old(View()), verb, opt)
    {
      reply := [];
      if verb == DO {
        if opt != OPT_ECHO && opt != OPT_SGA {
          return [IAC, WONT, opt];
        }
        if opt !in weWill {
          weWill := weWill + {opt};
          reply := [IAC, WILL, opt];
        }
      } else if verb == DONT {
        if opt in weWill {
          weWill := weWill - {opt};
          reply := [IAC, WONT, opt];
        }
      } else if verb == WILL {
        RecordWill(opt);
        if opt != OPT_TTYPE && opt != OPT_NAWS {
          return [IAC, DONT, opt];
        }
        if opt !in weDo {
          weDo := weDo + {opt};
          reply := [IAC, DO, opt];
        }
        assert weDo == old(weDo) + {opt};
        if opt == OPT_TTYPE && !ttypeRequested {
          ttypeRequested := true;
          reply := reply + [IAC, SB, OPT_TTYPE, TTYPE_SEND, IAC, SE];
        }
        assert reply + [] == reply;
      } else if verb == WONT {
        weDo := weDo - {opt};
      }
    }
  }
}
