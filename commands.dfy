/**
 * The bot: a registry from trigger to handler, the authorized senders, and
 * a random source consulted only by `!joke`; the per-message dispatch
 * decision (authorize, tokenize, look up, extract the argument) and the
 * loop over incoming chat events.
 */
module Commands {
  import opened Wrappers
  import opened Ascii
  import opened Numbers
  import opened Tokenize
  import opened Handlers

  /** What the chat runner yields: a chat message, the end of the stream, or anything else. */
  datatype Status = Privmsg(sender: string, text: string) | Quit | Eof | Other

  /** A handler selected for a message, with the argument extracted for it. */
  datatype Invocation = Invocation(trigger: string, handler: Handler, args: CmdArgs)

  /** The second whitespace-separated token of a message, if any. */
  function SecondToken(text: string): (r: Option<string>)
    ensures r.Some? <==> |Tokens(text)| >= 2
    ensures r.Some? ==> |r.value| > 0 && NoWhitespace(r.value)
  {
    var ts := Tokens(text);
    if |ts| >= 2 then Some(ts[1]) else None
  }

  /** The argument token parsed as a `u16`; a missing token and a parse error both give None. */
  function ParseArg(next: Option<string>): Option<u16>
  {
    match next
    case None => None
    case Some(x) => ParseU16(x)
  }

  /**
   * The argument each trigger receives, given the token after the trigger and
   * the value the random source would draw (used by `!joke` alone).
   */
  function ArgsFor(trigger: string, next: Option<string>, draw: u16): (r: CmdArgs)
    ensures r.U16? <==> trigger == "!joke" || (TakesNumber(trigger) && (trigger != "!vol" || ParseArg(next).Some?))
    ensures TakesNumber(trigger) && ParseArg(next).Some? ==> r == U16(ParseArg(next).value)
  {
    if trigger == "!rewind" || trigger == "!forward" then
      U16(match ParseArg(next) case Some(n) => n case None => 10)
    else if trigger == "!sub" || trigger == "!aud" then
      U16(match ParseArg(next) case Some(n) => n case None => 0)
    else if trigger == "!joke" then
      U16(draw)
    else if trigger == "!vol" then
      match ParseArg(next) case Some(n) => U16(n) case None => NoArg
    else
      NoArg
  }

  /**
   * The trigger a message is dispatched to: the sender must be authorized
   * (exact membership), the first token must start with '!' and be a
   * registered trigger. None means the message is discarded.
   */
  function Route(commands: map<string, Handler>, authorized: set<string>, sender: string, text: string): (r: Option<string>)
    ensures r.Some? ==> sender in authorized && r.value in commands
    ensures r.Some? ==> |Tokens(text)| > 0 && r.value == Tokens(text)[0] && r.value[0] == '!'
  {
    var ts := Tokens(text);
    if sender !in authorized || ts == [] then None
    else if ts[0][0] != '!' || ts[0] !in commands then None
    else Some(ts[0])
  }

  /** Only the `!joke` trigger may be bound to the joke handler, so its index always comes from the draw. */
  predicate JokeIndexed(commands: map<string, Handler>)
  {
    forall t :: t in commands && commands[t].Joke? ==> t == "!joke"
  }

  /** The registry after start-up: `cmd!` prefixes each closure's name with '!'. */
  function StandardRegistry(): (r: map<string, Handler>)
    ensures "!joke" in r && r["!joke"] == Joke && JokeIndexed(r)
  {
    map[
      "!play" := Mpv(SetProperty("pause", Flag(false))),
      "!pause" := Mpv(SetProperty("pause", Flag(true))),
      "!rewind" := Offset(Back),
      "!forward" := Offset(Ahead),
      "!pos" := Position,
      "!sub" := Track("sid"),
      "!aud" := Track("aid"),
      "!vol" := Volume,
      "!joke" := Joke]
  }

  /** Nine `cmd!` registrations, one after the other, add exactly the standard registry. */
  lemma RegistrationOrder(before: map<string, Handler>, after: map<string, Handler>)
    requires after == before
      ["!" + "play" := Mpv(SetProperty("pause", Flag(false)))]
      ["!" + "pause" := Mpv(SetProperty("pause", Flag(true)))]
      ["!" + "rewind" := Offset(Back)]
      ["!" + "forward" := Offset(Ahead)]
      ["!" + "pos" := Position]
      ["!" + "sub" := Track("sid")]
      ["!" + "aud" := Track("aid")]
      ["!" + "vol" := Volume]
      ["!" + "joke" := Joke]
    ensures after == before + StandardRegistry()
    ensures JokeIndexed(before) ==> JokeIndexed(after)
  {
    assert "!" + "play" == "!play" && "!" + "pause" == "!pause" && "!" + "rewind" == "!rewind";
    assert "!" + "forward" == "!forward" && "!" + "pos" == "!pos" && "!" + "sub" == "!sub";
    assert "!" + "aud" == "!aud" && "!" + "vol" == "!vol" && "!" + "joke" == "!joke";
  }

  /** The authorized set as loaded at start-up: every configured name lower-cased. */
  function AuthorizedSet(users: seq<string>): (r: set<string>)
    ensures forall x :: x in r <==> exists u :: u in users && x == Lower(u)
    ensures forall x :: x in r ==> IsLowered(x)
  {
    set u | u in users :: Lower(u)
  }

  class Bot {
    var commands: map<string, Handler>
    const authorizedUsers: set<string>
    const jokes: seq<string>
    /** The state of the random source, as the number of draws made so far. */
    var draws: nat

    ghost predicate Valid()
      reads this`commands
    {
      0 < |jokes| <= U16_MAX && JokeIndexed(commands)
    }

    constructor (users: seq<string>, jokeList: seq<string>)
      requires 0 < |jokeList| <= U16_MAX
      ensures Valid()
      ensures commands == map[] && draws == 0
      ensures authorizedUsers == AuthorizedSet(users) && jokes == jokeList
    {
      commands := map[];
      authorizedUsers := AuthorizedSet(users);
      jokes := jokeList;
      draws := 0;
    }

    /** Binds `name` to `handler`, replacing any earlier binding; other triggers keep theirs. */
    method AddCommand(name: string, handler: Handler)
      modifies this`commands
      ensures commands == old(commands)[name := handler]
      ensures old(Valid()) && (handler.Joke? ==> name == "!joke") ==> Valid()
    {
      commands := commands[name := handler];
    }

    /** The `cmd!` macro: registers a closure under '!' followed by its name. */
    method Register(name: string, handler: Handler)
      modifies this`commands
      ensures commands == old(commands)["!" + name := handler]
      ensures old(Valid()) && (handler.Joke? ==> name == "joke") ==> Valid()
    {
      AddCommand("!" + name, handler);
    }

    /** The registrations made at start-up, in the order the program makes them. */
    method InstallCommands()
      requires Valid()
      modifies this`commands
      ensures Valid()
      ensures commands == old(commands) + StandardRegistry()
    {
      ghost var before := commands;
      Register("play", Mpv(SetProperty("pause", Flag(false))));
      Register("pause", Mpv(SetProperty("pause", Flag(true))));
      Register("rewind", Offset(Back));
      Register("forward", Offset(Ahead));
      Register("pos", Position);
      Register("sub", Track("sid"));
      Register("aud", Track("aid"));
      Register("vol", Volume);
      Register("joke", Joke);
      RegistrationOrder(before, commands);
    }

    /**
     * The decision made for one chat message: which handler runs and with
     * which argument, or nothing. The random source is advanced exactly when
     * the message is dispatched to `!joke`.
     */
    method Dispatch(sender: string, text: string) returns (inv: Option<Invocation>)
      requires Valid()
      requires |sender| > 0 && |text| > 0
      modifies this`draws
      ensures inv.None? <==> Route(commands, authorizedUsers, sender, text).None?
      ensures inv.Some? ==>
        && inv.value.trigger == Route(commands, authorizedUsers, sender, text).value
        && inv.value.handler == commands[inv.value.trigger]
        && exists d: u16 :: d < |jokes| && inv.value.args == ArgsFor(inv.value.trigger, SecondToken(text), d)
      ensures draws == old(draws) + (if inv.Some? && inv.value.trigger == "!joke" then 1 else 0)
    {
      inv := None;
      if sender !in authorizedUsers {
        return;
      }
      var command, rest := NextToken(text, 0);
      assert text[0..] == text;
      if command.None? {
        return;
      }
      var t := command.value;
      if t[0] != '!' || t !in commands {
        return;
      }
      var args: CmdArgs;
      ghost var drawn: u16 := 0;
      if t == "!rewind" || t == "!forward" {
        var next, after := NextToken(text, rest);
        assert SecondToken(text) == next;
        args := U16(match ParseArg(next) case Some(n) => n case None => 10);
      } else if t == "!sub" || t == "!aud" {
        var next, after := NextToken(text, rest);
        assert SecondToken(text) == next;
        args := U16(match ParseArg(next) case Some(n) => n case None => 0);
      } else if t == "!joke" {
        var d: u16 :| d < |jokes|;
        draws := draws + 1;
        args, drawn := U16(d), d;
      } else if t == "!vol" {
        var next, after := NextToken(text, rest);
        assert SecondToken(text) == next;
        if next.Some? && ParseU16(next.value).Some? {
          args := U16(ParseU16(next.value).value);
        } else {
          args := NoArg;
        }
      } else {
        args := NoArg;
      }
      assert args == ArgsFor(t, SecondToken(text), drawn);
      inv := Some(Invocation(t, commands[t], args));
    }

    /** Whether a message is dispatched to `!joke`, the one case that draws from the random source. */
    predicate DrawsJoke(st: Status)
      reads this`commands
    {
      st.Privmsg? && Route(commands, authorizedUsers, st.sender, st.text) == Some("!joke")
    }

    /** Number of random draws the loop makes over `events`. */
    function JokeDraws(events: seq<Status>): nat
      reads this`commands
    {
      if events == [] then 0
      else JokeDraws(events[..|events| - 1]) + (if DrawsJoke(events[|events| - 1]) then 1 else 0)
    }

    /** The draws over one more event. */
    lemma JokeDrawsSnoc(events: seq<Status>, k: nat)
      requires k < |events|
      ensures JokeDraws(events[..k + 1]) == JokeDraws(events[..k]) + (if DrawsJoke(events[k]) then 1 else 0)
    {
      assert events[..k + 1][..k] == events[..k];
    }

    /** The per-event condition extends from the events handled so far to one more. */
    lemma StepsOkSnoc(events: seq<Status>, players: seq<Player>, outputs: seq<seq<Event>>, out: seq<Event>)
      requires Valid()
      requires |outputs| < |events| && |players| == |events|
      requires forall j :: 0 <= j < |outputs| ==> StepOk(events[j], players[j], outputs[j])
      requires StepOk(events[|outputs|], players[|outputs|], out)
      ensures forall j :: 0 <= j < |outputs| + 1 ==> StepOk(events[j], players[j], (outputs + [out])[j])
    {
      forall j | 0 <= j < |outputs| + 1
        ensures StepOk(events[j], players[j], (outputs + [out])[j])
      {
        if j < |outputs| {
          assert (outputs + [out])[j] == outputs[j];
        }
      }
    }

    /** The effects allowed for one event: a routed message runs its handler, anything else does nothing. */
    ghost predicate StepOk(st: Status, p: Player, out: seq<Event>)
      requires Valid()
      reads this`commands
    {
      if !st.Privmsg? then out == []
      else match Route(commands, authorizedUsers, st.sender, st.text)
        case None => out == []
        case Some(t) =>
          exists d: u16 :: d < |jokes| && out == Handle(commands[t], ArgsFor(t, SecondToken(st.text), d), p, jokes)
    }

    /** One turn of the loop: the event is dispatched and its handler, if any, run against the player's answers. */
    method Step(st: Status, p: Player) returns (out: seq<Event>)
      requires Valid()
      requires st.Privmsg? ==> |st.sender| > 0 && |st.text| > 0
      modifies this`draws
      ensures StepOk(st, p, out)
      ensures draws == old(draws) + (if DrawsJoke(st) then 1 else 0)
    {
      out := [];
      if st.Privmsg? {
        var inv := Dispatch(st.sender, st.text);
        if inv.Some? {
          ghost var d: u16 :| d < |jokes| && inv.value.args == ArgsFor(inv.value.trigger, SecondToken(st.text), d);
          out := Handle(inv.value.handler, inv.value.args, p, jokes);
        }
      }
    }

    /**
     * The dispatch loop over a finite prefix of the chat stream, `players[k]`
     * being what the player answers while event k is handled. The loop stops
     * after the first `Quit` or `Eof`; every other status keeps it running.
     * `outputs[k]` is the trace of event k.
     */
    method MainLoop(events: seq<Status>, players: seq<Player>) returns (outputs: seq<seq<Event>>)
      requires Valid()
      requires |players| == |events|
      requires forall k :: 0 <= k < |events| && events[k].Privmsg? ==>
        |events[k].sender| > 0 && |events[k].text| > 0
      modifies this`draws
      ensures |outputs| == Handled(events)
      ensures forall k :: 0 <= k < |outputs| ==> StepOk(events[k], players[k], outputs[k])
      ensures draws == old(draws) + JokeDraws(events[..|outputs|])
    {
      outputs := [];
      var k := 0;
      var running := true;
      while running && k < |events|
        invariant 0 <= k <= |events| && |outputs| == k
        invariant running ==> Handled(events) == k + Handled(events[k..])
        invariant !running ==> Handled(events) == k
        invariant forall j :: 0 <= j < k ==> StepOk(events[j], players[j], outputs[j])
        invariant draws == old(draws) + JokeDraws(events[..k])
        decreases |events| - k
      {
        HandledFrom(events, k);
        JokeDrawsSnoc(events, k);
        var out := Step(events[k], players[k]);
        if events[k].Quit? || events[k].Eof? {
          running := false;
        }
        StepsOkSnoc(events, players, outputs, out);
        outputs := outputs + [out];
        k := k + 1;
      }
    }
  }

  /**
   * A message is discarded (no handler, hence no draw) when its sender is not
   * in the authorized set, when it has no token or its first token does not
   * start with '!', and when that token is not a registered trigger.
   */
  lemma IgnoredMessages(commands: map<string, Handler>, authorized: set<string>, sender: string, text: string)
    ensures sender !in authorized ==> Route(commands, authorized, sender, text) == None
    ensures Tokens(text) == [] ==> Route(commands, authorized, sender, text) == None
    ensures Tokens(text) != [] && Tokens(text)[0][0] != '!' ==> Route(commands, authorized, sender, text) == None
    ensures Tokens(text) != [] && Tokens(text)[0] !in commands ==> Route(commands, authorized, sender, text) == None
  {
  }

  /** Every entry of the authorized set is lower-cased, so a sender with an ASCII capital is never served. */
  lemma CapitalizedSenderIgnored(commands: map<string, Handler>, users: seq<string>, sender: string, text: string, i: nat)
    requires i < |sender| && IsAsciiUpper(sender[i])
    ensures Route(commands, AuthorizedSet(users), sender, text) == None
  {
    assert !IsLowered(sender);
  }

  /**
   * An authorized line whose first word is a registered trigger is
   * dispatched to that trigger: after any run of leading whitespace, the
   * trigger alone, or followed by a whitespace character and anything at all.
   */
  lemma CommandLineRoutes(commands: map<string, Handler>, authorized: set<string>, sender: string,
                          ws: string, t: string, c: char, rest: string)
    requires sender in authorized && t in commands
    requires forall i :: 0 <= i < |ws| ==> IsAsciiWhitespace(ws[i])
    requires |t| > 0 && t[0] == '!' && NoWhitespace(t) && IsAsciiWhitespace(c)
    ensures Route(commands, authorized, sender, ws + t) == Some(t)
    ensures Route(commands, authorized, sender, ws + t + [c] + rest) == Some(t)
  {
    TokensAppend(t, c, rest);
    TokensOfWord(t);
    TokensSkipPrefix(ws, t);
    assert ws + t + [c] + rest == ws + (t + [c] + rest);
    TokensSkipPrefix(ws, t + [c] + rest);
  }

  /** In "t a rest" with t and a words, `a` is the argument token; in "t" alone there is none. */
  lemma SecondTokenOfLine(t: string, a: string, c: char, rest: string)
    requires |t| > 0 && NoWhitespace(t) && |a| > 0 && NoWhitespace(a)
    requires IsAsciiWhitespace(c)
    ensures SecondToken(t + " " + a) == Some(a)
    ensures SecondToken(t + " " + a + [c] + rest) == Some(a)
    ensures SecondToken(t) == None
  {
    TokensOfWord(t);
    TokensOfWord(a);
    TokensAppend(t, ' ', a);
    assert t + " " + a + [c] + rest == t + [' '] + (a + [c] + rest);
    TokensAppend(t, ' ', a + [c] + rest);
    TokensAppend(a, c, rest);
  }

  /** Tokens after the second are never examined: appending more leaves the trigger and its argument unchanged. */
  lemma ExtraTokensIgnored(text: string, c: char, more: string)
    requires IsAsciiWhitespace(c) && |Tokens(text)| >= 2
    ensures |Tokens(text + [c] + more)| >= 2 && Tokens(text + [c] + more)[..2] == Tokens(text)[..2]
    ensures SecondToken(text + [c] + more) == SecondToken(text)
    ensures forall commands, authorized, sender ::
      Route(commands, authorized, sender, text + [c] + more) == Route(commands, authorized, sender, text)
  {
    TokensAppend(text, c, more);
  }

  /** The triggers whose argument is the number typed after them. */
  predicate TakesNumber(t: string) {
    t == "!rewind" || t == "!forward" || t == "!sub" || t == "!aud" || t == "!vol"
  }

  /**
   * A number typed after `!rewind`, `!forward`, `!sub`, `!aud` or `!vol`
   * as digits is the argument when it is at most 65535; `!play`, `!pause`
   * and `!pos` ignore it. Larger values do not parse (`ParseDecimal`) and
   * then the defaults apply (`DefaultArguments`).
   */
  lemma TypedNumberIsArgument(t: string, n: nat, c: char, rest: string, draw: u16)
    requires |t| > 0 && NoWhitespace(t) && IsAsciiWhitespace(c)
    requires n <= U16_MAX
    ensures TakesNumber(t) ==> ArgsFor(t, SecondToken(t + " " + Decimal(n) + [c] + rest), draw) == U16(n)
    ensures t == "!play" || t == "!pause" || t == "!pos" ==>
      ArgsFor(t, SecondToken(t + " " + Decimal(n) + [c] + rest), draw) == NoArg
  {
    ParseDecimal(n);
    SecondTokenOfLine(t, Decimal(n), c, rest);
    ParsedArgument(t, Decimal(n), n, draw);
  }

  /** The same with an explicit '+' sign before the number. */
  lemma SignedNumberIsArgument(t: string, n: nat, c: char, rest: string, draw: u16)
    requires |t| > 0 && NoWhitespace(t) && IsAsciiWhitespace(c)
    requires n <= U16_MAX
    ensures TakesNumber(t) ==> ArgsFor(t, SecondToken(t + " " + ("+" + Decimal(n)) + [c] + rest), draw) == U16(n)
  {
    ParseDecimal(n);
    PlusDigitsIsWord(Decimal(n));
    SecondTokenOfLine(t, "+" + Decimal(n), c, rest);
    ParsedArgument(t, "+" + Decimal(n), n, draw);
  }

  lemma PlusDigitsIsWord(digits: string)
    requires AllDigits(digits)
    ensures |"+" + digits| > 0 && NoWhitespace("+" + digits)
  {
    var plus := "+" + digits;
    assert forall i :: 1 <= i < |plus| ==> plus[i] == digits[i - 1];
  }

  lemma ParsedArgument(t: string, x: string, n: u16, draw: u16)
    requires ParseU16(x) == Some(n)
    ensures TakesNumber(t) ==> ArgsFor(t, Some(x), draw) == U16(n)
    ensures t == "!play" || t == "!pause" || t == "!pos" ==> ArgsFor(t, Some(x), draw) == NoArg
  {
  }

  /**
   * With no argument token, or one that is not a valid `u16` (a sign, a
   * letter, a value above 65535), `!rewind` and `!forward` use 10 seconds,
   * `!sub` and `!aud` use track 0, and `!vol` gets no value.
   */
  lemma DefaultArguments(next: Option<string>, draw: u16)
    requires next.None? || ParseU16(next.value).None?
    ensures ArgsFor("!rewind", next, draw) == U16(10) && ArgsFor("!forward", next, draw) == U16(10)
    ensures ArgsFor("!sub", next, draw) == U16(0) && ArgsFor("!aud", next, draw) == U16(0)
    ensures ArgsFor("!vol", next, draw) == NoArg
  {
  }

  /** `!vol` gets a value exactly when the next token parses as a `u16`, and then it is that value. */
  lemma VolumeArgumentIff(next: Option<string>, draw: u16)
    ensures ArgsFor("!vol", next, draw).U16? <==> next.Some? && ParseU16(next.value).Some?
    ensures ArgsFor("!vol", next, draw).U16? ==> ArgsFor("!vol", next, draw).n == ParseU16(next.value).value
  {
  }

  /** Only `!joke` depends on the draw, and it takes the draw as its index; every other trigger ignores it. */
  lemma OnlyJokeDraws(t: string, next: Option<string>, d1: u16, d2: u16)
    ensures ArgsFor("!joke", next, d1) == U16(d1)
    ensures t != "!joke" ==> ArgsFor(t, next, d1) == ArgsFor(t, next, d2)
    ensures t !in {"!rewind", "!forward", "!sub", "!aud", "!joke", "!vol"} ==> ArgsFor(t, next, d1) == NoArg
  {
  }

  /** A trigger as typed in chat: '!' followed by a word. */
  predicate IsTrigger(t: string) {
    |t| > 1 && t[0] == '!' && NoWhitespace(t)
  }

  /**
   * After start-up the registry holds exactly the nine triggers, each '!'
   * followed by a word, and only `!joke` is bound to the joke handler.
   */
  lemma StandardRegistryShape()
    ensures StandardRegistry().Keys
      == {"!play", "!pause", "!rewind", "!forward", "!pos", "!sub", "!aud", "!vol", "!joke"}
    ensures forall t :: t in StandardRegistry() ==> IsTrigger(t)
    ensures JokeIndexed(StandardRegistry())
  {
    assert IsTrigger("!play") && IsTrigger("!pause") && IsTrigger("!rewind");
    assert IsTrigger("!forward") && IsTrigger("!pos") && IsTrigger("!sub");
    assert IsTrigger("!aud") && IsTrigger("!vol") && IsTrigger("!joke");
  }

  /**
   * `!play` and `!pause` as registered set `pause` to false and true, read
   * nothing and never reply, whatever the argument and the player.
   */
  lemma PlayPauseSend(args: CmdArgs, p: Player, jokes: seq<string>)
    ensures Handle(StandardRegistry()["!play"], args, p, jokes) == [Send(SetProperty("pause", Flag(false)))]
    ensures Handle(StandardRegistry()["!pause"], args, p, jokes) == [Send(SetProperty("pause", Flag(true)))]
    ensures Sends(Handle(StandardRegistry()["!play"], args, p, jokes)) == [SetProperty("pause", Flag(false))]
    ensures Sends(Handle(StandardRegistry()["!pause"], args, p, jokes)) == [SetProperty("pause", Flag(true))]
    ensures Says(Handle(StandardRegistry()["!play"], args, p, jokes)) == []
    ensures Says(Handle(StandardRegistry()["!pause"], args, p, jokes)) == []
  {
    MpvSends(SetProperty("pause", Flag(false)), args, p, jokes);
    MpvSends(SetProperty("pause", Flag(true)), args, p, jokes);
  }

  /** The loop consumes events up to and including the first `Quit` or `Eof`, and all of them if there is none. */
  lemma {:induction false} HandledStopsAtEnd(events: seq<Status>, i: nat)
    requires i < |events| && (events[i].Quit? || events[i].Eof?)
    requires forall j :: 0 <= j < i ==> !events[j].Quit? && !events[j].Eof?
    ensures Handled(events) == i + 1
  {
    if i > 0 {
      assert events[1..][i - 1] == events[i];
      HandledStopsAtEnd(events[1..], i - 1);
    }
  }

  lemma {:induction false} HandledAll(events: seq<Status>)
    requires forall j :: 0 <= j < |events| ==> !events[j].Quit? && !events[j].Eof?
    ensures Handled(events) == |events|
  {
    if events != [] {
      HandledAll(events[1..]);
    }
  }

  /** One event of the suffix from `k`: the loop stops there or goes on with the suffix after it. */
  lemma HandledFrom(events: seq<Status>, k: nat)
    requires k < |events|
    ensures Handled(events[k..]) == if events[k].Quit? || events[k].Eof? then 1 else 1 + Handled(events[k + 1..])
  {
    assert events[k..][0] == events[k] && events[k..][1..] == events[k + 1..];
  }

  /** Number of events the loop consumes: up to and including the first `Quit` or `Eof`. */
  function Handled(events: seq<Status>): (n: nat)
    ensures n <= |events|
  {
    if events == [] then 0
    else if events[0].Quit? || events[0].Eof? then 1
    else 1 + Handled(events[1..])
  }
}
