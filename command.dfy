/**
 * The command layer of src/classes/client/Command.ts: the three command
 * classes (one Dafny class tagged with the class it stands for), their
 * defaults, `patch`, `toString`, the developer gate of `run` and the
 * per-user cooldown bookkeeping of `handleCooldown`.
 *
 * The clock, the handler and the timers are inputs: `Date.now()` is passed
 * in (twice, as the source reads it twice), `execute` is its outcome (a
 * returned flag or a throw), and the `setTimeout` that evicts an entry is
 * returned as a `Timer` value that `Fire` carries out.
 */
module Commands {
  import opened Wrappers
  import opened Strings

  datatype CommandGroup = General

  /** The `type` field of a command. */
  datatype CommandType = ChatInput | MessageContext | UserContext

  /** Which of the three command classes an object was built as. */
  datatype CommandClass = ChatInputCommand | MessageContextCommand | UserContextCommand

  datatype InteractionContextType = Guild | BotDM | PrivateChannel

  datatype IntegrationType = GuildInstall | UserInstall

  datatype ApplicationCommandType = ChatInputApp | MessageApp | UserApp

  /** `contexts`: everywhere (`true`) or the listed sources. */
  datatype Contexts = AllContexts | Listed(sources: seq<InteractionContextType>)

  /** The metadata a command is declared with; `None` is an omitted optional field. */
  datatype Metadata = Metadata(
    name: string,
    description: Option<string>,
    helpText: Option<string>,
    cooldownSeconds: Option<int>,
    group: Option<CommandGroup>,
    developer: Option<bool>,
    userInstalled: bool,
    guildInstalled: bool,
    contexts: Contexts)

  datatype CooldownType = Normal | Skipped | Errored

  datatype Cooldown = Cooldown(timestamp: int, kind: CooldownType)

  datatype CommandRunResult = Normal | Errored | OnCooldown

  /**
   * What the handler passed to `handleCooldown` did: returned a flag, or
   * threw. A `nullish` throw (`null` or `undefined`) makes `handleErr` throw
   * in turn when it reads `err.name`, so the error reply is never sent; the
   * `return` in the `finally` block discards that second error.
   */
  datatype ExecuteOutcome = Returned(output: bool) | Threw(nullish: bool)

  /** The ephemeral replies the command layer itself sends. */
  datatype Reply =
    | CooldownReply(previouslyErrored: bool, expiresAt: int)
    | ExecutionErrorReply
    | NotDeveloperReply

  /** The errors the command layer throws. */
  datatype CommandError = NotInstallable(command: string) | MissingCooldownMap(command: string)

  const DefaultDescription: string := "No description."
  const DefaultCooldownSeconds: int := 3

  /** `developerIds` of src/common/constants.ts. */
  const DeveloperIds: seq<string> := ["366536353418182657"]

  /** The `type` each class declares; the user-context class declares `messageContext`. */
  function TypeOf(cls: CommandClass): (t: CommandType)
    ensures t == ChatInput <==> cls == ChatInputCommand
    ensures t != UserContext
  {
    match cls
    case ChatInputCommand => ChatInput
    case MessageContextCommand => MessageContext
    case UserContextCommand => MessageContext
  }

  // ---------------------------------------------------------------------------
  // toString

  /** `toString()` of each class: a chat command mention, or the quoted context command. */
  function Mention(cls: CommandClass, name: string, id: string): (s: string)
    ensures cls == ChatInputCommand ==> |s| == |name| + |id| + 4 && s[..2] == "</" && s[|s| - 1] == '>'
    ensures cls != ChatInputCommand ==> |s| == |name| + 4 && s[..3] == "`* " && s[|s| - 1] == '`'
  {
    if cls == ChatInputCommand then "</" + name + ":" + id + ">" else "`* " + name + "`"
  }

  /** A context command's text holds its name, and only its name, between `` `* `` and `` ` ``. */
  lemma ContextMentionRecoversName(cls: CommandClass, name: string, id: string)
    requires cls != ChatInputCommand
    ensures var s := Mention(cls, name, id);
      |s| == |name| + 4 && s[..3] == "`* " && s[|s| - 1] == '`' && s[3..|s| - 1] == name
  {
  }

  /** Chat and context command texts never collide: one starts with `<`, the other with a backquote. */
  lemma MentionsOfDifferentKindsDiffer(name1: string, id1: string, cls: CommandClass, name2: string, id2: string)
    requires cls != ChatInputCommand
    ensures Mention(ChatInputCommand, name1, id1) != Mention(cls, name2, id2)
  {
    assert Mention(ChatInputCommand, name1, id1)[0] == '<';
    assert Mention(cls, name2, id2)[0] == '`';
  }

  /** For names without a colon, a chat command mention determines both the name and the id. */
  lemma {:induction false} ChatMentionInjective(name1: string, id1: string, name2: string, id2: string)
    requires ':' !in name1 && ':' !in name2
    requires Mention(ChatInputCommand, name1, id1) == Mention(ChatInputCommand, name2, id2)
    ensures name1 == name2 && id1 == id2
  {
    var s := Mention(ChatInputCommand, name1, id1);
    assert s == ("</" + name1) + [':'] + (id1 + ">");
    assert s == ("</" + name2) + [':'] + (id2 + ">");
    IndexOfFirst("</" + name1, ':', id1 + ">");
    IndexOfFirst("</" + name2, ':', id2 + ">");
    assert name1 == s[2..2 + |name1|] == name2;
    assert id1 == s[3 + |name1|..|s| - 1] == id2;
  }

  lemma {:induction false} IndexOfFirst(p: string, c: char, rest: string)
    requires c !in p
    ensures FirstIndex(p + [c] + rest, c) == |p|
  {
    if p != [] {
      assert (p + [c] + rest)[1..] == p[1..] + [c] + rest;
      IndexOfFirst(p[1..], c, rest);
    }
  }

  // ---------------------------------------------------------------------------
  // handleCooldown, as a function of the cooldown map of one command

  /** When an entry stops blocking: its window is the command's own cooldown after a normal use, the error cooldown otherwise. */
  function ExpireTimestamp(c: Cooldown, cooldownSeconds: int, errorCooldownSeconds: int): int {
    c.timestamp + (if c.kind == CooldownType.Normal then cooldownSeconds else errorCooldownSeconds) * 1000
  }

  predicate OnCooldownAt(entries: map<string, Cooldown>, user: string, now: int, cooldownSeconds: int, errorCooldownSeconds: int) {
    user in entries && now < ExpireTimestamp(entries[user], cooldownSeconds, errorCooldownSeconds)
  }

  /** Whether a use that was not rejected writes an entry: unless skipped or a developer command. */
  predicate WritesEntry(outcome: ExecuteOutcome, developer: bool) {
    outcome != Returned(false) && !developer
  }

  /** The new map, result, reply, and eviction delay of one `handleCooldown` call. */
  datatype Step = Step(entries: map<string, Cooldown>, result: CommandRunResult, reply: Option<Reply>, evictAfterMs: Option<int>)

  /**
   * One call of `handleCooldown` on the cooldown map `entries` of a command:
   * `now` is the clock when the call starts, `finish` when the handler is done.
   */
  function CooldownStep(entries: map<string, Cooldown>, user: string, now: int, finish: int, outcome: ExecuteOutcome,
                        developer: bool, cooldownSeconds: int, errorCooldownSeconds: int): (s: Step)
    ensures s.result == CommandRunResult.OnCooldown <==> OnCooldownAt(entries, user, now, cooldownSeconds, errorCooldownSeconds)
    ensures s.result == CommandRunResult.Errored <==> !OnCooldownAt(entries, user, now, cooldownSeconds, errorCooldownSeconds) && outcome.Threw?
    ensures s.reply == Some(ExecutionErrorReply) <==> !OnCooldownAt(entries, user, now, cooldownSeconds, errorCooldownSeconds) && outcome == Threw(false)
    ensures forall u :: u != user ==> (u in s.entries <==> u in entries)
    ensures forall u :: u != user && u in entries ==> s.entries[u] == entries[u]
  {
    if OnCooldownAt(entries, user, now, cooldownSeconds, errorCooldownSeconds) then
      var c := entries[user];
      Step(entries, CommandRunResult.OnCooldown,
           Some(CooldownReply(c.kind == CooldownType.Errored, ExpireTimestamp(c, cooldownSeconds, errorCooldownSeconds))), None)
    else
      var errored := outcome.Threw?;
      var result := if errored then CommandRunResult.Errored else CommandRunResult.Normal;
      var reply := if outcome == Threw(false) then Some(ExecutionErrorReply) else None;
      if WritesEntry(outcome, developer) then
        var kind := if errored then CooldownType.Errored else CooldownType.Normal;
        var delay := if errored then errorCooldownSeconds else cooldownSeconds;
        Step(entries[user := Cooldown(finish, kind)], result, reply, Some(delay * 1000))
      else
        Step(entries, result, reply, None)
  }

  /** A rejected use changes nothing, schedules nothing, and tells the user when the window ends. */
  lemma OnCooldownChangesNothing(entries: map<string, Cooldown>, user: string, now: int, finish: int, outcome: ExecuteOutcome,
                                 developer: bool, cooldownSeconds: int, errorCooldownSeconds: int)
    requires OnCooldownAt(entries, user, now, cooldownSeconds, errorCooldownSeconds)
    ensures var s := CooldownStep(entries, user, now, finish, outcome, developer, cooldownSeconds, errorCooldownSeconds);
      && s.entries == entries && s.evictAfterMs == None
      && s.reply == Some(CooldownReply(entries[user].kind == CooldownType.Errored,
                                       ExpireTimestamp(entries[user], cooldownSeconds, errorCooldownSeconds)))
  {
  }

  /** Skipped uses and developer commands leave the map as it was. */
  lemma NoEntryWhenSkippedOrDeveloper(entries: map<string, Cooldown>, user: string, now: int, finish: int, outcome: ExecuteOutcome,
                                      developer: bool, cooldownSeconds: int, errorCooldownSeconds: int)
    requires !WritesEntry(outcome, developer)
    ensures var s := CooldownStep(entries, user, now, finish, outcome, developer, cooldownSeconds, errorCooldownSeconds);
      s.entries == entries && s.evictAfterMs == None
  {
  }

  /**
   * A use that runs and is not skipped on a non-developer command records
   * the finish time, `errored` exactly when the handler threw, and schedules
   * an eviction after the matching window; the result is `errored` exactly
   * when it threw, and the error reply goes out unless the throw was nullish.
   */
  lemma EntryWrittenOtherwise(entries: map<string, Cooldown>, user: string, now: int, finish: int, outcome: ExecuteOutcome,
                              developer: bool, cooldownSeconds: int, errorCooldownSeconds: int)
    requires !OnCooldownAt(entries, user, now, cooldownSeconds, errorCooldownSeconds)
    requires WritesEntry(outcome, developer)
    ensures var s := CooldownStep(entries, user, now, finish, outcome, developer, cooldownSeconds, errorCooldownSeconds);
      && s.entries == entries[user := Cooldown(finish, if outcome.Threw? then CooldownType.Errored else CooldownType.Normal)]
      && s.evictAfterMs == Some(WindowSeconds(outcome, cooldownSeconds, errorCooldownSeconds) * 1000)
      && s.result == (if outcome.Threw? then CommandRunResult.Errored else CommandRunResult.Normal)
      && s.reply == (if outcome == Threw(false) then Some(ExecutionErrorReply) else None)
  {
  }

  /** The window, in seconds, of the entry a use writes: the error cooldown after a throw, the command's own otherwise. */
  function WindowSeconds(outcome: ExecuteOutcome, cooldownSeconds: int, errorCooldownSeconds: int): int {
    if outcome.Threw? then errorCooldownSeconds else cooldownSeconds
  }

  /** The largest delay Node's `setTimeout` honours: 2^31 - 1 ms, about 24.8 days. */
  const TimeoutMax: int := 0x7FFF_FFFF

  /** The delay after which Node runs a `setTimeout` callback: a requested delay outside 1..TimeoutMax becomes 1 ms. */
  function EffectiveDelay(requested: int): (d: int)
    ensures 1 <= d <= TimeoutMax
    ensures d == requested <==> 1 <= requested <= TimeoutMax
  {
    if 1 <= requested <= TimeoutMax then requested else 1
  }

  /**
   * The requested eviction delay ends exactly when the entry it evicts stops
   * blocking, and the timer fires then whenever that delay is one Node honours.
   */
  lemma EvictionMatchesWindow(entries: map<string, Cooldown>, user: string, now: int, finish: int, outcome: ExecuteOutcome,
                              developer: bool, cooldownSeconds: int, errorCooldownSeconds: int)
    ensures var s := CooldownStep(entries, user, now, finish, outcome, developer, cooldownSeconds, errorCooldownSeconds);
      s.evictAfterMs.Some? ==>
        && user in s.entries
        && ExpireTimestamp(s.entries[user], cooldownSeconds, errorCooldownSeconds) == finish + s.evictAfterMs.value
        && (1 <= s.evictAfterMs.value <= TimeoutMax ==>
              finish + EffectiveDelay(s.evictAfterMs.value) == ExpireTimestamp(s.entries[user], cooldownSeconds, errorCooldownSeconds))
  {
  }

  /**
   * A window longer than `TimeoutMax`, whether the command's own cooldown or
   * the error cooldown, is cut short: the timer fires after 1 ms, well before
   * the entry would stop blocking, and the user's next use then runs.
   */
  lemma LongCooldownEvictedEarly(entries: map<string, Cooldown>, user: string, now: int, finish: int, outcome: ExecuteOutcome,
                                 developer: bool, cooldownSeconds: int, errorCooldownSeconds: int, later: int)
    requires !OnCooldownAt(entries, user, now, cooldownSeconds, errorCooldownSeconds)
    requires WritesEntry(outcome, developer)
    requires WindowSeconds(outcome, cooldownSeconds, errorCooldownSeconds) * 1000 > TimeoutMax
    ensures var s := CooldownStep(entries, user, now, finish, outcome, developer, cooldownSeconds, errorCooldownSeconds);
      && s.evictAfterMs.Some? && EffectiveDelay(s.evictAfterMs.value) == 1
      && finish + EffectiveDelay(s.evictAfterMs.value) < ExpireTimestamp(s.entries[user], cooldownSeconds, errorCooldownSeconds)
      && CooldownStep(s.entries - {user}, user, later, later, outcome, developer, cooldownSeconds, errorCooldownSeconds).result
         != CommandRunResult.OnCooldown
  {
    EntryWrittenOtherwise(entries, user, now, finish, outcome, developer, cooldownSeconds, errorCooldownSeconds);
  }

  /** No entry ever stored has the `skipped` type. */
  ghost predicate NoSkippedEntries(entries: map<string, Cooldown>) {
    forall u :: u in entries ==> entries[u].kind != CooldownType.Skipped
  }

  // ---------------------------------------------------------------------------
  // Traces: uses of one command interleaved with timer evictions

  datatype Event =
    | Invoke(user: string, now: int, finish: int, outcome: ExecuteOutcome)
    | Expire(user: string)

  /** The cooldown map of one command after a sequence of uses and evictions. */
  function Replay(entries: map<string, Cooldown>, events: seq<Event>, developer: bool,
                  cooldownSeconds: int, errorCooldownSeconds: int): (r: map<string, Cooldown>)
    ensures forall u :: u in r && u !in entries ==> exists k :: 0 <= k < |events| && events[k].Invoke? && events[k].user == u
    decreases |events|
  {
    if events == [] then entries
    else
      var next := match events[0]
        case Invoke(u, now, finish, outcome) =>
          CooldownStep(entries, u, now, finish, outcome, developer, cooldownSeconds, errorCooldownSeconds).entries
        case Expire(u) => entries - {u};
      Replay(next, events[1..], developer, cooldownSeconds, errorCooldownSeconds)
  }

  /** Stored entries are only ever `normal` or `errored`, whatever the interleaving. */
  lemma {:induction false} ReplayKeepsNoSkippedEntries(entries: map<string, Cooldown>, events: seq<Event>, developer: bool,
                                                       cooldownSeconds: int, errorCooldownSeconds: int)
    requires NoSkippedEntries(entries)
    ensures NoSkippedEntries(Replay(entries, events, developer, cooldownSeconds, errorCooldownSeconds))
    decreases |events|
  {
    if events != [] {
      var next := match events[0]
        case Invoke(u, now, finish, outcome) =>
          CooldownStep(entries, u, now, finish, outcome, developer, cooldownSeconds, errorCooldownSeconds).entries
        case Expire(u) => entries - {u};
      assert NoSkippedEntries(next);
      ReplayKeepsNoSkippedEntries(next, events[1..], developer, cooldownSeconds, errorCooldownSeconds);
    }
  }

  /**
   * A developer command's map stays empty through any uses and evictions,
   * so such a command is never rejected as on cooldown.
   */
  lemma {:induction false} DeveloperCommandNeverCoolsDown(events: seq<Event>, cooldownSeconds: int, errorCooldownSeconds: int, i: nat)
    requires i <= |events|
    ensures Replay(map[], events[..i], true, cooldownSeconds, errorCooldownSeconds) == map[]
    ensures i < |events| && events[i].Invoke? ==>
      CooldownStep(map[], events[i].user, events[i].now, events[i].finish, events[i].outcome, true,
                   cooldownSeconds, errorCooldownSeconds).result != CommandRunResult.OnCooldown
  {
    DeveloperReplayEmpty(events[..i], cooldownSeconds, errorCooldownSeconds);
  }

  lemma {:induction false} DeveloperReplayEmpty(events: seq<Event>, cooldownSeconds: int, errorCooldownSeconds: int)
    ensures Replay(map[], events, true, cooldownSeconds, errorCooldownSeconds) == map[]
    decreases |events|
  {
    if events != [] {
      var next := match events[0]
        case Invoke(u, now, finish, outcome) =>
          CooldownStep(map[], u, now, finish, outcome, true, cooldownSeconds, errorCooldownSeconds).entries
        case Expire(u) => map[] - {u};
      assert next == map[];
      DeveloperReplayEmpty(events[1..], cooldownSeconds, errorCooldownSeconds);
    }
  }

  /** Once a user's entry has been evicted, their next use is never rejected. */
  lemma UseAfterEvictionRuns(entries: map<string, Cooldown>, user: string, now: int, finish: int, outcome: ExecuteOutcome,
                             developer: bool, cooldownSeconds: int, errorCooldownSeconds: int)
    ensures CooldownStep(entries - {user}, user, now, finish, outcome, developer, cooldownSeconds, errorCooldownSeconds).result
            != CommandRunResult.OnCooldown
  {
  }

  /** A use at or after the end of the window runs, even if the eviction has not fired yet. */
  lemma UseAfterWindowRuns(entries: map<string, Cooldown>, user: string, now: int, finish: int, outcome: ExecuteOutcome,
                           developer: bool, cooldownSeconds: int, errorCooldownSeconds: int)
    requires user in entries && now >= ExpireTimestamp(entries[user], cooldownSeconds, errorCooldownSeconds)
    ensures CooldownStep(entries, user, now, finish, outcome, developer, cooldownSeconds, errorCooldownSeconds).result
            != CommandRunResult.OnCooldown
  {
  }

  // ---------------------------------------------------------------------------
  // Mutable state

  /** The per-user cooldown `Collection` of one command. */
  class CooldownMap {
    var entries: map<string, Cooldown>

    constructor ()
      ensures entries == map[]
    {
      entries := map[];
    }

    /** `cooldownMap.delete(user)`. */
    method Delete(user: string)
      modifies this
      ensures entries == old(entries) - {user}
    {
      entries := entries - {user};
    }
  }

  /**
   * A pending `setTimeout(() => cooldownMap.delete(user), delayMs)`; it holds the map object itself.
   * `delayMs` is the requested delay; the timer waits `EffectiveDelay(delayMs)`.
   */
  datatype Timer = Timer(target: CooldownMap, user: string, delayMs: int)

  /** The timer firing: the eviction the source schedules. */
  method Fire(t: Timer)
    modifies t.target
    ensures t.target.entries == old(t.target.entries) - {t.user}
  {
    t.target.Delete(t.user);
  }

  /** What `handleCooldown` resolves to, with the reply it sent and the timer it set. */
  datatype Handled = Handled(result: CommandRunResult, reply: Option<Reply>, timer: Option<Timer>)

  /** What `run` did: reject a non-developer, or go through `handleCooldown`. */
  datatype RunReport = RejectedNotDeveloper(reply: Reply) | Ran(handled: Handled)

  /** The part of a command builder that the command layer sets. */
  class Builder {
    var name: string
    var description: string
    var commandType: Option<ApplicationCommandType>
    var integrationTypes: seq<IntegrationType>
    var contexts: seq<InteractionContextType>

    constructor ()
      ensures name == "" && description == "" && commandType == None
      ensures integrationTypes == [] && contexts == []
    {
      name, description, commandType := "", "", None;
      integrationTypes, contexts := [], [];
    }
  }

  class Command {
    const cls: CommandClass
    const name: string
    const description: string
    const helpText: Option<string>
    const cooldown: int
    const group: CommandGroup
    const developer: bool
    const userInstalled: bool
    const guildInstalled: bool
    const contexts: Contexts
    const builder: Builder
    var patched: bool
    var id: string

    /**
     * The `BaseCommand` constructor and the builder set-up of the subclass
     * constructor (everything before its final `patch`).
     */
    constructor (cls: CommandClass, meta: Metadata, builder: Builder)
      modifies builder
      ensures this.cls == cls && this.builder == builder
      ensures name == meta.name && helpText == meta.helpText
      ensures description == (if meta.description.Some? then meta.description.value else DefaultDescription)
      ensures cooldown == (if meta.cooldownSeconds.Some? then meta.cooldownSeconds.value else DefaultCooldownSeconds)
      ensures group == (if meta.group.Some? then meta.group.value else General)
      ensures developer == (meta.developer.Some? && meta.developer.value)
      ensures userInstalled == meta.userInstalled && guildInstalled == meta.guildInstalled && contexts == meta.contexts
      ensures !patched && id == "0"
      ensures builder.name == meta.name
      ensures builder.description == (if cls == ChatInputCommand then description else old(builder.description))
      ensures builder.commandType == (match cls
                                      case ChatInputCommand => old(builder.commandType)
                                      case MessageContextCommand => Some(MessageApp)
                                      case UserContextCommand => Some(UserApp))
      ensures builder.integrationTypes == old(builder.integrationTypes) && builder.contexts == old(builder.contexts)
    {
      this.cls := cls;
      this.builder := builder;
      patched := false;
      userInstalled := meta.userInstalled;
      guildInstalled := meta.guildInstalled;
      name := meta.name;
      description := if meta.description.Some? then meta.description.value else DefaultDescription;
      helpText := meta.helpText;
      cooldown := if meta.cooldownSeconds.Some? then meta.cooldownSeconds.value else DefaultCooldownSeconds;
      group := if meta.group.Some? then meta.group.value else General;
      developer := if meta.developer.Some? then meta.developer.value else false;
      contexts := meta.contexts;
      id := "0";
      new;
      builder.name := name;
      match cls {
        case ChatInputCommand => builder.description := description;
        case MessageContextCommand => builder.commandType := Some(MessageApp);
        case UserContextCommand => builder.commandType := Some(UserApp);
      }
    }

    /** The name sits right after the opening `</` or `` `* ``. */
    function ToString(): (s: string)
      reads this
      ensures |s| == |name| + (if cls == ChatInputCommand then |id| + 4 else 4)
      ensures cls == ChatInputCommand ==> s[2..2 + |name|] == name && s[2 + |name|] == ':'
      ensures cls != ChatInputCommand ==> s[3..|s| - 1] == name
    {
      Mention(cls, name, id)
    }

    /**
     * `patch`: once only, refuse a command installed nowhere, then give the
     * builder the installation types and the contexts.
     */
    method Patch() returns (r: Outcome<CommandError>)
      modifies this, builder
      ensures id == old(id)
      ensures old(patched) ==> r == Pass && patched && unchanged(builder)
      ensures !old(patched) && !userInstalled && !guildInstalled ==>
        r == Fail(NotInstallable(name)) && !patched && unchanged(builder)
      ensures !old(patched) && (userInstalled || guildInstalled) ==>
        && r == Pass && patched
        && (UserInstall in builder.integrationTypes <==> userInstalled)
        && (GuildInstall in builder.integrationTypes <==> guildInstalled)
        && builder.integrationTypes == (if userInstalled then [UserInstall] else []) + (if guildInstalled then [GuildInstall] else [])
        && |builder.integrationTypes| == (if userInstalled then 1 else 0) + (if guildInstalled then 1 else 0)
        && builder.contexts == (if contexts.AllContexts? then [BotDM, Guild, PrivateChannel] else contexts.sources)
        && builder.name == old(builder.name) && builder.description == old(builder.description)
        && builder.commandType == old(builder.commandType)
    {
      if patched {
        return Pass;
      }
      if !userInstalled && !guildInstalled {
        return Fail(NotInstallable(name));
      }
      var integrationTypes: seq<IntegrationType> := [];
      if userInstalled {
        integrationTypes := integrationTypes + [UserInstall];
      }
      if guildInstalled {
        integrationTypes := integrationTypes + [GuildInstall];
      }
      builder.integrationTypes := integrationTypes;
      match contexts {
        case AllContexts => builder.contexts := [BotDM, Guild, PrivateChannel];
        case Listed(sources) => builder.contexts := sources;
      }
      patched := true;
      return Pass;
    }

    /**
     * `handleCooldown`, given the client's map from command names to
     * cooldown maps and its error cooldown.
     */
    method HandleCooldown(cooldownMaps: map<string, CooldownMap>, errorCooldownSeconds: int,
                          user: string, now: int, outcome: ExecuteOutcome, finish: int)
      returns (r: Result<Handled, CommandError>)
      modifies if name in cooldownMaps then {cooldownMaps[name]} else {}
      ensures name !in cooldownMaps ==> r == Failure(MissingCooldownMap(name))
      ensures name in cooldownMaps ==>
        var m := cooldownMaps[name];
        var s := CooldownStep(old(m.entries), user, now, finish, outcome, developer, cooldown, errorCooldownSeconds);
        && m.entries == s.entries
        && r == Success(Handled(s.result, s.reply, if s.evictAfterMs.Some? then Some(Timer(m, user, s.evictAfterMs.value)) else None))
    {
      if name !in cooldownMaps {
        return Failure(MissingCooldownMap(name));
      }
      var cooldownMap := cooldownMaps[name];
      if user in cooldownMap.entries {
        var c := cooldownMap.entries[user];
        var expireTimestamp := c.timestamp + (if c.kind == CooldownType.Normal then cooldown else errorCooldownSeconds) * 1000;
        if now < expireTimestamp {
          return Success(Handled(CommandRunResult.OnCooldown,
                                 Some(CooldownReply(c.kind == CooldownType.Errored, expireTimestamp)), None));
        }
      }
      var resultType := CooldownType.Errored;
      var errored := false;
      var reply: Option<Reply> := None;
      match outcome {
        case Returned(output) =>
          resultType := if output then CooldownType.Normal else CooldownType.Skipped;
        case Threw(nullish) =>
          errored := true;
          if !nullish {
            reply := Some(ExecutionErrorReply);
          }
      }
      var timer: Option<Timer> := None;
      if resultType != CooldownType.Skipped && !developer {
        cooldownMap.entries := cooldownMap.entries[user := Cooldown(finish, if errored then CooldownType.Errored else CooldownType.Normal)];
        timer := Some(Timer(cooldownMap, user, (if errored then errorCooldownSeconds else cooldown) * 1000));
      }
      return Success(Handled(if errored then CommandRunResult.Errored else CommandRunResult.Normal, reply, timer));
    }

    /**
     * `run`: a developer command used by anyone outside `developerIds` is
     * rejected before `handleCooldown`, so no cooldown map changes.
     */
    method Run(cooldownMaps: map<string, CooldownMap>, errorCooldownSeconds: int,
               user: string, now: int, outcome: ExecuteOutcome, finish: int)
      returns (r: Result<RunReport, CommandError>)
      modifies if name in cooldownMaps then {cooldownMaps[name]} else {}
      ensures developer && user !in DeveloperIds ==>
        r == Success(RejectedNotDeveloper(NotDeveloperReply))
        && (name in cooldownMaps ==> cooldownMaps[name].entries == old(cooldownMaps[name].entries))
      ensures !(developer && user !in DeveloperIds) && name !in cooldownMaps ==>
        r == Failure(MissingCooldownMap(name))
      ensures !(developer && user !in DeveloperIds) && name in cooldownMaps ==>
        var m := cooldownMaps[name];
        var s := CooldownStep(old(m.entries), user, now, finish, outcome, developer, cooldown, errorCooldownSeconds);
        && m.entries == s.entries
        && r == Success(Ran(Handled(s.result, s.reply, if s.evictAfterMs.Some? then Some(Timer(m, user, s.evictAfterMs.value)) else None)))
    {
      if developer && user !in DeveloperIds {
        return Success(RejectedNotDeveloper(NotDeveloperReply));
      }
      var handled := HandleCooldown(cooldownMaps, errorCooldownSeconds, user, now, outcome, finish);
      match handled {
        case Failure(e) => return Failure(e);
        case Success(h) => return Success(Ran(h));
      }
    }
  }

  /**
   * A subclass constructor: build, then `patch`, which throws for a command
   * installed nowhere (after the builder has been named).
   */
  method NewCommand(cls: CommandClass, meta: Metadata, builder: Builder) returns (r: Result<Command, CommandError>)
    modifies builder
    ensures r.Success? <==> meta.userInstalled || meta.guildInstalled
    ensures r.Failure? ==> r.error == NotInstallable(meta.name)
    ensures builder.name == meta.name
    ensures r.Success? ==>
      var c := r.value;
      && fresh(c) && c.builder == builder && c.cls == cls && c.patched && c.id == "0"
      && c.name == meta.name && c.helpText == meta.helpText
      && c.description == (if meta.description.Some? then meta.description.value else DefaultDescription)
      && c.cooldown == (if meta.cooldownSeconds.Some? then meta.cooldownSeconds.value else DefaultCooldownSeconds)
      && c.group == (if meta.group.Some? then meta.group.value else General)
      && c.developer == (meta.developer.Some? && meta.developer.value)
      && c.userInstalled == meta.userInstalled && c.guildInstalled == meta.guildInstalled && c.contexts == meta.contexts
    ensures r.Success? ==>
      && builder.integrationTypes == (if meta.userInstalled then [UserInstall] else []) + (if meta.guildInstalled then [GuildInstall] else [])
      && builder.contexts == (if meta.contexts.AllContexts? then [BotDM, Guild, PrivateChannel] else meta.contexts.sources)
      && builder.description == (if cls == ChatInputCommand then r.value.description else old(builder.description))
      && builder.commandType == (match cls
                                 case ChatInputCommand => old(builder.commandType)
                                 case MessageContextCommand => Some(MessageApp)
                                 case UserContextCommand => Some(UserApp))
  {
    var cmd := new Command(cls, meta, builder);
    var patched := cmd.Patch();
    if patched.Fail? {
      return Failure(patched.error);
    }
    return Success(cmd);
  }
}
