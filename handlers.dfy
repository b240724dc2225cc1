/**
 * The command handlers the bot registers at start-up (the closures built by
 * `cmd_mpv!`, `cmd_offset!` and the `pos`, `sub`, `aud`, `vol` and `joke`
 * closures). A handler is a tag; `Handle` gives the trace of effects one
 * invocation produces: property reads, `set_property` requests sent to the
 * player, and chat replies. What the player answers is an input (`Player`).
 */
module Handlers {
  import opened Wrappers
  import opened Numbers
  import opened Clock
  import opened Ascii

  /** The typed argument the dispatch loop extracts for a trigger (`CmdArgs`). */
  datatype CmdArgs = U16(n: u16) | NoArg

  /** The value of a `set_property` request. */
  datatype Value = Flag(b: bool) | Whole(w: nat) | Number(x: real)

  /** A request `{ "command": ["set_property", property, value] }` sent to the player. */
  datatype Payload = SetProperty(property: string, value: Value)

  /** One observable effect of a handler. */
  datatype Event =
    | Get(property: string)    // a `get_property` round trip to the player
    | Send(payload: Payload)   // a `set_property` request
    | Say(text: string)        // a chat reply

  /**
   * What the player answers during one invocation: the readings of
   * `time-pos`, `duration` and `volume` (None when the read fails for any
   * reason), and the error text of a failed send (None when it succeeds).
   * The volume is kept as the text its floating-point `Display` produces.
   */
  datatype Player = Player(
    timePos: Option<real>,
    duration: Option<real>,
    volumeShown: Option<string>,
    sendFailure: Option<string>)

  datatype Direction = Back | Ahead

  datatype Handler =
    | Mpv(payload: Payload)      // `cmd_mpv!`: send a fixed request
    | Offset(dir: Direction)     // `cmd_offset!`: seek relative to `time-pos`
    | Position                   // `pos`
    | Track(property: string)    // `sub` ("sid") and `aud` ("aid")
    | Volume                     // `vol`
    | Joke                       // `joke`

  /** `time_pos - seconds` for `!rewind`, `time_pos + seconds` for `!forward`. */
  function Shift(dir: Direction, timePos: real, seconds: u16): (r: real)
    ensures dir == Back ==> r <= timePos
    ensures dir == Ahead ==> timePos <= r
    ensures r - timePos == seconds as real || timePos - r == seconds as real
  {
    match dir
    case Back => timePos - seconds as real
    case Ahead => timePos + seconds as real
  }

  /** Rust's saturating `f64 as u64` on a finite value: truncation toward zero, clamped to the u64 range. */
  function ToU64(x: real): (r: u64)
    ensures 0.0 <= x < 0x1_0000_0000_0000_0000 as real ==> r as real <= x < r as real + 1.0
    ensures x < 0.0 ==> r == 0
    ensures x >= 0x1_0000_0000_0000_0000 as real ==> r == 0xFFFF_FFFF_FFFF_FFFF
  {
    if x <= 0.0 then 0
    else if x >= 0x1_0000_0000_0000_0000 as real then 0xFFFF_FFFF_FFFF_FFFF
    else x.Floor
  }

  /**
   * The `!pos` reply: "elapsed / total (remaining remaining)", whose three
   * clocks read back as the truncated elapsed, total and remaining seconds
   * (each modulo 60 hours).
   */
  function PositionLine(timePos: real, duration: real): (r: string)
    ensures exists a, b, c ::
      r == a + " / " + b + " (" + c + " remaining)"
      && ParseClock(a) == Some(ToU64(timePos) % WRAP)
      && ParseClock(b) == Some(ToU64(duration) % WRAP)
      && ParseClock(c) == Some(ToU64(duration - timePos) % WRAP)
  {
    var a, b, c := FormatTime(ToU64(timePos)), FormatTime(ToU64(duration)), FormatTime(ToU64(duration - timePos));
    FormatTimeReadsBack(ToU64(timePos));
    FormatTimeReadsBack(ToU64(duration));
    FormatTimeReadsBack(ToU64(duration - timePos));
    a + " / " + b + " (" + c + " remaining)"
  }

  /** The trace of one handler invocation. `!joke` indexes the joke list, so its index must be in range. */
  function Handle(h: Handler, args: CmdArgs, p: Player, jokes: seq<string>): (trace: seq<Event>)
    requires h.Joke? && args.U16? ==> args.n < |jokes|
    ensures |trace| <= 3
    ensures forall i :: 0 <= i < |trace| && trace[i].Say? ==> i == |trace| - 1
  {
    match h
    case Mpv(payload) => [Send(payload)]
    case Offset(dir) =>
      if args.NoArg? then []
      else if p.timePos.None? then [Get("time-pos")]
      else [Get("time-pos"), Send(SetProperty("time-pos", Number(Shift(dir, p.timePos.value, args.n))))]
    case Position =>
      if p.timePos.None? then [Get("time-pos")]
      else if p.duration.None? then [Get("time-pos"), Get("duration")]
      else [Get("time-pos"), Get("duration"), Say(PositionLine(p.timePos.value, p.duration.value))]
    case Track(property) =>
      if args.NoArg? then [] else [Send(SetProperty(property, Whole(args.n)))]
    case Volume =>
      if args.U16? then
        [Send(SetProperty("volume", Whole(args.n))),
         Say(if p.sendFailure.None? then "(volume has been set to " + Decimal(args.n) + "%)"
             else "failed to set volume: " + p.sendFailure.value)]
      else
        [Get("volume"),
         Say(if p.volumeShown.Some? then "volume: " + p.volumeShown.value + "%"
             else "(failed to get volume information)")]
    case Joke =>
      if args.NoArg? then [] else [Say(jokes[args.n])]
  }

  function SendOf(e: Event): seq<Payload> {
    if e.Send? then [e.payload] else []
  }

  function SayOf(e: Event): seq<string> {
    if e.Say? then [e.text] else []
  }

  /** The requests a trace sends to the player, in order. */
  function Sends(trace: seq<Event>): seq<Payload>
  {
    if trace == [] then [] else SendOf(trace[0]) + Sends(trace[1..])
  }

  /** The chat replies a trace writes, in order. */
  function Says(trace: seq<Event>): seq<string>
  {
    if trace == [] then [] else SayOf(trace[0]) + Says(trace[1..])
  }

  /** The requests of a trace of up to three events, event by event. */
  lemma SendsOfShort(t: seq<Event>)
    requires |t| <= 3
    ensures Sends(t) == (if |t| > 0 then SendOf(t[0]) else [])
      + (if |t| > 1 then SendOf(t[1]) else []) + (if |t| > 2 then SendOf(t[2]) else [])
  {
    if |t| > 0 {
      assert |t| > 1 ==> t[1..][0] == t[1];
      assert |t| > 2 ==> t[1..][1..][0] == t[2];
      assert |t| == 1 ==> t[1..] == [];
      assert |t| == 2 ==> t[1..][1..] == [];
      assert |t| == 3 ==> t[1..][1..][1..] == [];
    }
  }

  /** The replies of a trace of up to three events, event by event. */
  lemma SaysOfShort(t: seq<Event>)
    requires |t| <= 3
    ensures Says(t) == (if |t| > 0 then SayOf(t[0]) else [])
      + (if |t| > 1 then SayOf(t[1]) else []) + (if |t| > 2 then SayOf(t[2]) else [])
  {
    if |t| > 0 {
      assert |t| > 1 ==> t[1..][0] == t[1];
      assert |t| > 2 ==> t[1..][1..][0] == t[2];
      assert |t| == 1 ==> t[1..] == [];
      assert |t| == 2 ==> t[1..][1..] == [];
      assert |t| == 3 ==> t[1..][1..][1..] == [];
    }
  }

  /**
   * Every handler sends at most one `set_property` request and writes at most
   * one reply, and makes at most two requests to the player in all (reads
   * included): every event that is not a reply is a request.
   */
  lemma AtMostOneEach(h: Handler, args: CmdArgs, p: Player, jokes: seq<string>)
    requires h.Joke? && args.U16? ==> args.n < |jokes|
    ensures |Sends(Handle(h, args, p, jokes))| <= 1
    ensures |Says(Handle(h, args, p, jokes))| <= 1
    ensures |Handle(h, args, p, jokes)| <= |Says(Handle(h, args, p, jokes))| + 2
  {
    SendsOfShort(Handle(h, args, p, jokes));
    SaysOfShort(Handle(h, args, p, jokes));
  }

  /**
   * `!rewind n` / `!forward n` send exactly one `time-pos` request, with the
   * current position minus / plus n, when the position can be read, and
   * nothing otherwise; they never reply.
   */
  lemma OffsetSeeks(dir: Direction, n: u16, p: Player, jokes: seq<string>)
    ensures Sends(Handle(Offset(dir), U16(n), p, jokes))
      == if p.timePos.None? then []
         else [SetProperty("time-pos", Number(
                if dir == Back then p.timePos.value - n as real else p.timePos.value + n as real))]
    ensures Says(Handle(Offset(dir), U16(n), p, jokes)) == []
  {
    SendsOfShort(Handle(Offset(dir), U16(n), p, jokes));
    SaysOfShort(Handle(Offset(dir), U16(n), p, jokes));
  }

  /** The `!pos` trace's requests and replies. */
  lemma PositionTrace(args: CmdArgs, p: Player, jokes: seq<string>)
    ensures Sends(Handle(Position, args, p, jokes)) == []
    ensures Says(Handle(Position, args, p, jokes))
      == if p.timePos.Some? && p.duration.Some? then [PositionLine(p.timePos.value, p.duration.value)] else []
  {
    SendsOfShort(Handle(Position, args, p, jokes));
    SaysOfShort(Handle(Position, args, p, jokes));
  }

  /**
   * `!pos` replies only when both readings succeed, sends nothing, and its
   * reply carries the three clock fields that read back as the elapsed, total
   * and remaining seconds (each truncated and taken modulo 60 hours).
   */
  lemma PositionReplies(args: CmdArgs, p: Player, jokes: seq<string>)
    ensures Sends(Handle(Position, args, p, jokes)) == []
    ensures |Says(Handle(Position, args, p, jokes))| == (if p.timePos.Some? && p.duration.Some? then 1 else 0)
    ensures p.timePos.Some? && p.duration.Some? ==>
      var tp, d := p.timePos.value, p.duration.value;
      exists a, b, c ::
        Says(Handle(Position, args, p, jokes)) == [a + " / " + b + " (" + c + " remaining)"]
        && ParseClock(a) == Some(ToU64(tp) % WRAP)
        && ParseClock(b) == Some(ToU64(d) % WRAP)
        && ParseClock(c) == Some(ToU64(d - tp) % WRAP)
  {
    PositionTrace(args, p, jokes);
  }

  /** `!sub t` / `!aud t` set `sid` / `aid` to t and never reply. */
  lemma TrackSets(property: string, t: u16, p: Player, jokes: seq<string>)
    ensures Sends(Handle(Track(property), U16(t), p, jokes)) == [SetProperty(property, Whole(t))]
    ensures Says(Handle(Track(property), U16(t), p, jokes)) == []
  {
    SendsOfShort(Handle(Track(property), U16(t), p, jokes));
    SaysOfShort(Handle(Track(property), U16(t), p, jokes));
  }

  /**
   * `!vol v` sends `volume` = v and replies with the confirmation, whose
   * number is plain digits without a leading zero and reads back as v, or with the failure text; `!vol` alone reads the
   * volume and replies with it or with the fixed failure string.
   */
  lemma VolumeReplies(args: CmdArgs, p: Player, jokes: seq<string>)
    ensures args.U16? ==>
      Sends(Handle(Volume, args, p, jokes)) == [SetProperty("volume", Whole(args.n))]
    ensures args.U16? && p.sendFailure.None? ==>
      exists d :: Says(Handle(Volume, args, p, jokes)) == ["(volume has been set to " + d + "%)"]
        && AllDigits(d) && (|d| > 1 ==> d[0] != '0') && ParseU16(d) == Some(args.n)
    ensures args.U16? && p.sendFailure.Some? ==>
      Says(Handle(Volume, args, p, jokes)) == ["failed to set volume: " + p.sendFailure.value]
    ensures args.NoArg? ==> Sends(Handle(Volume, args, p, jokes)) == []
    ensures args.NoArg? ==>
      Says(Handle(Volume, args, p, jokes))
      == [if p.volumeShown.Some? then "volume: " + p.volumeShown.value + "%"
          else "(failed to get volume information)"]
  {
    var t := Handle(Volume, args, p, jokes);
    SendsOfShort(t);
    SaysOfShort(t);
    if args.U16? {
      ParseDecimal(args.n);
      if p.sendFailure.None? {
        assert Says(t) == ["(volume has been set to " + Decimal(args.n) + "%)"];
      }
    }
  }

  /**
   * The `cmd_mpv!` handlers send their fixed request, whatever the argument
   * and the player, read nothing and never reply.
   */
  lemma MpvSends(payload: Payload, args: CmdArgs, p: Player, jokes: seq<string>)
    ensures Handle(Mpv(payload), args, p, jokes) == [Send(payload)]
    ensures Sends(Handle(Mpv(payload), args, p, jokes)) == [payload]
    ensures Says(Handle(Mpv(payload), args, p, jokes)) == []
  {
    SendsOfShort(Handle(Mpv(payload), args, p, jokes));
    SaysOfShort(Handle(Mpv(payload), args, p, jokes));
  }

  /** `!joke` with index i replies with the i-th joke and sends nothing. */
  lemma JokeSays(i: u16, p: Player, jokes: seq<string>)
    requires i < |jokes|
    ensures Says(Handle(Joke, U16(i), p, jokes)) == [jokes[i]]
    ensures Sends(Handle(Joke, U16(i), p, jokes)) == []
  {
    SendsOfShort(Handle(Joke, U16(i), p, jokes));
    SaysOfShort(Handle(Joke, U16(i), p, jokes));
  }
}
