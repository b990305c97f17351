/**
 * The command registry of src/classes/client/CustomClient.ts: the commands
 * by name and, per command, the map of user cooldowns.
 */
module Client {
  import opened Wrappers
  import opened Commands

  class CustomClient {
    var commands: map<string, Command>
    var cooldowns: map<string, CooldownMap>
    var buttonCooldowns: map<string, int>
    var skips: map<string, seq<string>>
    /** The client option giving the cooldown after a use that threw, in seconds. */
    const errorCooldownSeconds: int

    /** Every registered command has its cooldown map, under the name it is registered by. */
    ghost predicate Valid()
      reads this, commands.Values
    {
      commands.Keys == cooldowns.Keys && forall n :: n in commands ==> commands[n].name == n
    }

    constructor (errorCooldownSeconds: int)
      ensures Valid()
      ensures this.errorCooldownSeconds == errorCooldownSeconds
      ensures commands == map[] && cooldowns == map[] && buttonCooldowns == map[] && skips == map[]
    {
      this.errorCooldownSeconds := errorCooldownSeconds;
      commands := map[];
      buttonCooldowns := map[];
      cooldowns := map[];
      skips := map[];
    }

    /**
     * `addCommand`: register the command under its name with a fresh, empty
     * cooldown map, replacing an earlier command of that name and its cooldowns.
     */
    method AddCommand(command: Command)
      requires Valid()
      modifies this
      ensures Valid()
      ensures commands == old(commands)[command.name := command]
      ensures command.name in cooldowns && fresh(cooldowns[command.name]) && cooldowns[command.name].entries == map[]
      ensures forall n :: n in old(cooldowns) && n != command.name ==> n in cooldowns && cooldowns[n] == old(cooldowns)[n]
      ensures cooldowns.Keys == old(cooldowns).Keys + {command.name}
      ensures buttonCooldowns == old(buttonCooldowns) && skips == old(skips)
    {
      commands := commands[command.name := command];
      var m := new CooldownMap();
      cooldowns := cooldowns[command.name := m];
    }

    /**
     * Running a registered command against this client: `run` reaches the
     * client through the interaction and finds the command's cooldown map.
     */
    method RunCommand(name: string, user: string, now: int, outcome: ExecuteOutcome, finish: int)
      returns (r: RunReport)
      requires Valid() && name in commands
      modifies cooldowns[name]
      ensures var cmd := commands[name];
        cmd.developer && user !in DeveloperIds ==>
          r == RejectedNotDeveloper(NotDeveloperReply) && cooldowns[name].entries == old(cooldowns[name].entries)
      ensures var cmd := commands[name];
        !(cmd.developer && user !in DeveloperIds) ==>
          var s := CooldownStep(old(cooldowns[name].entries), user, now, finish, outcome, cmd.developer, cmd.cooldown, errorCooldownSeconds);
          && cooldowns[name].entries == s.entries
          && r.Ran? && r.handled.result == s.result && r.handled.reply == s.reply
          && r.handled.timer == (if s.evictAfterMs.Some? then Some(Timer(cooldowns[name], user, s.evictAfterMs.value)) else None)
    {
      var cmd := commands[name];
      var result := cmd.Run(cooldowns, errorCooldownSeconds, user, now, outcome, finish);
      r := result.value;
    }
  }
}
