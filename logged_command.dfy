/**
 * The command label of src/utils/functions/loggedCommand.ts: a symbol for
 * the kind of command, a space, and the command's name (colouring is the
 * identity here).
 */
module LoggedCommands {
  import opened Commands

  /** `/` for chat commands, `*` for context commands. */
  function Symbol(t: CommandType): (s: string)
    ensures |s| == 1
  {
    if t == ChatInput then "/"
    else if t == MessageContext || t == UserContext then "*"
    else "?"
  }

  /** `loggedCommand(command)`, given the command's `type` and `name`. */
  function LoggedCommand(t: CommandType, name: string): (s: string)
    ensures |s| == |name| + 2 && s[..1] == Symbol(t) && s[1] == ' ' && s[2..] == name
  {
    Symbol(t) + " " + name
  }

  /** A label reads back as its symbol, a space and the name; the symbol tells chat commands from context ones. */
  lemma LoggedCommandReadsBack(t: CommandType, name: string)
    ensures var s := LoggedCommand(t, name);
      && |s| == |name| + 2 && s[1] == ' ' && s[2..] == name
      && (s[0] == '/' <==> t == ChatInput)
      && (s[0] == '*' <==> t == MessageContext || t == UserContext)
  {
    var s := LoggedCommand(t, name);
    assert s == Symbol(t) + [' '] + name;
    assert s[0] == Symbol(t)[0];
  }

  /** Two labels are equal only for the same name and the same symbol. */
  lemma LoggedCommandInjective(t1: CommandType, name1: string, t2: CommandType, name2: string)
    requires LoggedCommand(t1, name1) == LoggedCommand(t2, name2)
    ensures name1 == name2 && Symbol(t1) == Symbol(t2)
  {
    LoggedCommandReadsBack(t1, name1);
    LoggedCommandReadsBack(t2, name2);
    assert Symbol(t1) == LoggedCommand(t1, name1)[..1];
    assert Symbol(t2) == LoggedCommand(t2, name2)[..1];
  }

  /**
   * The label of a command object: `/` for the chat class, `*` for both
   * context classes (the user-context class declares the `messageContext`
   * type, which shows the same symbol).
   */
  lemma LoggedCommandOfClass(cls: CommandClass, name: string)
    ensures LoggedCommand(TypeOf(cls), name)[0] == (if cls == ChatInputCommand then '/' else '*')
  {
    LoggedCommandReadsBack(TypeOf(cls), name);
  }
}
