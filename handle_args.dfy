/**
 * The command-line handling of src/utils/scripts/handleArgs.ts: the table of
 * known flags, the normalisation of `process.argv` (drop the executable and
 * the script, keep known flags, map them to their names, drop repeats) and
 * the choice between printing help, resetting the deployed commands, and
 * starting the bot.
 */
module Args {
  import opened Wrappers
  import opened Strings

  datatype ProcessArg = ProcessArg(name: string, alias: Option<string>, description: Option<string>)

  /** `argMap`. */
  const ArgMap: seq<ProcessArg> := [
    ProcessArg("help", Some("h"), Some("Shows information about command line arguments.")),
    ProcessArg("skip-deploy", Some("s"), Some("Skip refreshing commands with the Discord API.")),
    ProcessArg("reset-commands", Some("r"), Some("Resets global and dev guild commands."))
  ]

  /** `if (a.alias)`: an alias counts only when present and not the empty string. */
  predicate HasAlias(a: ProcessArg) {
    a.alias.Some? && a.alias.value != ""
  }

  function LongFlag(a: ProcessArg): string {
    "--" + a.name
  }

  function ShortFlag(a: ProcessArg): string
    requires HasAlias(a)
  {
    "-" + a.alias.value
  }

  /** The flags one entry contributes to `validArgs`. */
  function FlagsOf(a: ProcessArg): seq<string> {
    [LongFlag(a)] + if HasAlias(a) then [ShortFlag(a)] else []
  }

  /** `validArgs`: the flat list of every entry's flags. */
  function ValidArgs(argMap: seq<ProcessArg>): (r: seq<string>)
    ensures forall i :: 0 <= i < |argMap| ==> LongFlag(argMap[i]) in r
    ensures forall i :: 0 <= i < |argMap| && HasAlias(argMap[i]) ==> ShortFlag(argMap[i]) in r
    ensures forall k :: 0 <= k < |r| ==> StartsWith(r[k], "-")
  {
    if argMap == [] then [] else FlagsOf(argMap[0]) + ValidArgs(argMap[1..])
  }

  /** A flag is valid exactly when it is some entry's long flag or, where it has one, its short flag. */
  lemma {:induction false} ValidArgsExactly(argMap: seq<ProcessArg>, arg: string)
    ensures arg in ValidArgs(argMap) <==>
      exists i :: 0 <= i < |argMap| && (arg == LongFlag(argMap[i]) || (HasAlias(argMap[i]) && arg == ShortFlag(argMap[i])))
  {
    if argMap != [] {
      ValidArgsExactly(argMap[1..], arg);
      if arg in ValidArgs(argMap[1..]) {
        var i :| 0 <= i < |argMap[1..]| && (arg == LongFlag(argMap[1..][i]) || (HasAlias(argMap[1..][i]) && arg == ShortFlag(argMap[1..][i])));
        assert argMap[i + 1] == argMap[1..][i];
      }
      if exists i :: 0 <= i < |argMap| && (arg == LongFlag(argMap[i]) || (HasAlias(argMap[i]) && arg == ShortFlag(argMap[i]))) {
        var i :| 0 <= i < |argMap| && (arg == LongFlag(argMap[i]) || (HasAlias(argMap[i]) && arg == ShortFlag(argMap[i])));
        if i > 0 {
          assert argMap[1..][i - 1] == argMap[i];
        }
      }
    }
  }

  /**
   * What the table must satisfy for normalisation to be well defined and
   * faithful: names distinct, aliases distinct, and no alias starting with
   * `-` (a short flag would then read as a long one).
   */
  predicate WellFormed(argMap: seq<ProcessArg>) {
    && (forall i, j :: 0 <= i < j < |argMap| ==> argMap[i].name != argMap[j].name)
    && (forall i, j :: 0 <= i < j < |argMap| && HasAlias(argMap[i]) && HasAlias(argMap[j]) ==> argMap[i].alias != argMap[j].alias)
    && (forall i :: 0 <= i < |argMap| && HasAlias(argMap[i]) ==> argMap[i].alias.value[0] != '-')
  }

  lemma ArgMapWellFormed()
    ensures WellFormed(ArgMap)
  {
    assert ArgMap[0].name[0] != ArgMap[1].name[0];
    assert ArgMap[0].name[0] != ArgMap[2].name[0];
    assert ArgMap[1].name[0] != ArgMap[2].name[0];
  }

  /** `argMap.find(a => a.alias === x)`. */
  function FindByAlias(argMap: seq<ProcessArg>, x: string): (r: Option<nat>)
    ensures r.Some? ==> r.value < |argMap| && argMap[r.value].alias == Some(x)
    ensures r.Some? ==> forall j :: 0 <= j < r.value ==> argMap[j].alias != Some(x)
    ensures r.None? ==> forall j :: 0 <= j < |argMap| ==> argMap[j].alias != Some(x)
  {
    if argMap == [] then None
    else if argMap[0].alias == Some(x) then Some(0)
    else match FindByAlias(argMap[1..], x)
      case None => None
      case Some(k) => Some(k + 1)
  }

  lemma ShortFlagsAreNotLong(argMap: seq<ProcessArg>, i: nat)
    requires WellFormed(argMap) && i < |argMap| && HasAlias(argMap[i])
    ensures !StartsWith(ShortFlag(argMap[i]), "--")
  {
    assert ShortFlag(argMap[i])[1] == argMap[i].alias.value[0];
  }

  /** The name a valid flag stands for: the alias's entry for `-x`, the rest of the flag for `--name`. */
  function Normalise(argMap: seq<ProcessArg>, arg: string): (r: string)
    requires WellFormed(argMap) && arg in ValidArgs(argMap)
    ensures exists i :: 0 <= i < |argMap| && r == argMap[i].name
  {
    ValidArgsExactly(argMap, arg);
    if !StartsWith(arg, "--") then
      var i :| 0 <= i < |argMap| && (arg == LongFlag(argMap[i]) || (HasAlias(argMap[i]) && arg == ShortFlag(argMap[i])));
      assert arg != LongFlag(argMap[i]);
      assert arg[1..] == argMap[i].alias.value;
      var k := FindByAlias(argMap, arg[1..]);
      argMap[k.value].name
    else
      LongFlagWitness(argMap, arg);
      arg[2..]
  }

  /** A valid flag that starts with `--` is some entry's long flag, and the rest of it is that entry's name. */
  lemma LongFlagWitness(argMap: seq<ProcessArg>, arg: string)
    requires WellFormed(argMap) && arg in ValidArgs(argMap) && StartsWith(arg, "--")
    ensures exists i :: 0 <= i < |argMap| && arg == LongFlag(argMap[i]) && arg[2..] == argMap[i].name
  {
    ValidArgsExactly(argMap, arg);
    var i :| 0 <= i < |argMap| && (arg == LongFlag(argMap[i]) || (HasAlias(argMap[i]) && arg == ShortFlag(argMap[i])));
    if HasAlias(argMap[i]) {
      ShortFlagsAreNotLong(argMap, i);
    }
    assert arg == LongFlag(argMap[i]);
    assert arg[2..] == argMap[i].name;
  }

  /** `--name` stands for `name`. */
  lemma NormaliseLongFlag(argMap: seq<ProcessArg>, i: nat)
    requires WellFormed(argMap) && i < |argMap|
    ensures LongFlag(argMap[i]) in ValidArgs(argMap)
    ensures Normalise(argMap, LongFlag(argMap[i])) == argMap[i].name
  {
    ValidArgsExactly(argMap, LongFlag(argMap[i]));
    assert StartsWith(LongFlag(argMap[i]), "--");
  }

  /** `-x` stands for the name of the entry whose alias is `x`. */
  lemma NormaliseShortFlag(argMap: seq<ProcessArg>, i: nat)
    requires WellFormed(argMap) && i < |argMap| && HasAlias(argMap[i])
    ensures ShortFlag(argMap[i]) in ValidArgs(argMap)
    ensures Normalise(argMap, ShortFlag(argMap[i])) == argMap[i].name
  {
    ValidArgsExactly(argMap, ShortFlag(argMap[i]));
    ShortFlagsAreNotLong(argMap, i);
    var arg := ShortFlag(argMap[i]);
    assert arg[1..] == argMap[i].alias.value;
    var k := FindByAlias(argMap, arg[1..]);
    assert k.Some? && k.value == i;
  }

  /** Every valid flag stands for the name of the entry it is a flag of. */
  lemma NormaliseIsName(argMap: seq<ProcessArg>, arg: string)
    requires WellFormed(argMap) && arg in ValidArgs(argMap)
    ensures exists i :: 0 <= i < |argMap| && Normalise(argMap, arg) == argMap[i].name &&
                        (arg == LongFlag(argMap[i]) || (HasAlias(argMap[i]) && arg == ShortFlag(argMap[i])))
  {
    ValidArgsExactly(argMap, arg);
    var i :| 0 <= i < |argMap| && (arg == LongFlag(argMap[i]) || (HasAlias(argMap[i]) && arg == ShortFlag(argMap[i])));
    if arg == LongFlag(argMap[i]) {
      NormaliseLongFlag(argMap, i);
    } else {
      NormaliseShortFlag(argMap, i);
    }
  }

  /** `processArgs.slice(2)`. */
  function DropFirstTwo(argv: seq<string>): seq<string> {
    if |argv| <= 2 then [] else argv[2..]
  }

  /** `.filter(arg => validArgs.includes(arg))`. */
  function KeepValid(argMap: seq<ProcessArg>, args: seq<string>): (r: seq<string>)
    ensures forall a :: a in r <==> a in args && a in ValidArgs(argMap)
  {
    if args == [] then []
    else (if args[0] in ValidArgs(argMap) then [args[0]] else []) + KeepValid(argMap, args[1..])
  }

  /** `.map(...)` over valid flags. */
  function NormaliseAll(argMap: seq<ProcessArg>, args: seq<string>): (r: seq<string>)
    requires WellFormed(argMap) && forall a :: a in args ==> a in ValidArgs(argMap)
    ensures |r| == |args| && forall k :: 0 <= k < |args| ==> r[k] == Normalise(argMap, args[k])
  {
    if args == [] then [] else [Normalise(argMap, args[0])] + NormaliseAll(argMap, args[1..])
  }

  predicate NoDuplicates(s: seq<string>) {
    forall i, j :: 0 <= i < j < |s| ==> s[i] != s[j]
  }

  /** `[...new Set(s)]`: each value once, at the place it first appeared. */
  function Dedupe(s: seq<string>): (r: seq<string>)
    ensures |r| <= |s|
    ensures forall x :: x in r <==> x in s
  {
    if s == [] then [] else
      var r := Dedupe(s[..|s| - 1]);
      if s[|s| - 1] in r then r else r + [s[|s| - 1]]
  }

  lemma {:induction false} FirstIndexOfExtended(p: seq<string>, x: string, y: string)
    ensures y in p ==> FirstIndex(p + [x], y) == FirstIndex(p, y)
    ensures y !in p && y == x ==> FirstIndex(p + [x], y) == |p|
  {
    if p != [] {
      assert (p + [x])[1..] == p[1..] + [x];
      FirstIndexOfExtended(p[1..], x, y);
    }
  }

  /**
   * `Set` semantics: the same values, no repeats, and in the order of their
   * first occurrences.
   */
  lemma {:induction false} DedupeIsSetOrder(s: seq<string>)
    ensures forall x :: x in Dedupe(s) <==> x in s
    ensures NoDuplicates(Dedupe(s))
    ensures forall i, j :: 0 <= i < j < |Dedupe(s)| ==> FirstIndex(s, Dedupe(s)[i]) < FirstIndex(s, Dedupe(s)[j])
  {
    if s != [] {
      var p, x := s[..|s| - 1], s[|s| - 1];
      assert s == p + [x];
      DedupeIsSetOrder(p);
      var r := Dedupe(p);
      forall y | y in p
        ensures FirstIndex(s, y) == FirstIndex(p, y)
      {
        FirstIndexOfExtended(p, x, y);
      }
      if x !in r {
        FirstIndexOfExtended(p, x, x);
        var r' := r + [x];
        forall i, j | 0 <= i < j < |r'|
          ensures FirstIndex(s, r'[i]) < FirstIndex(s, r'[j])
        {
          assert r'[i] == r[i] && r[i] in p;
          if j < |r| {
            assert r'[j] == r[j] && r[j] in p;
          } else {
            assert r'[j] == x;
          }
        }
      } else {
        forall i, j | 0 <= i < j < |r|
          ensures FirstIndex(s, r[i]) < FirstIndex(s, r[j])
        {
          assert r[i] in p && r[j] in p;
        }
      }
    }
  }

  /** `args` of `handleArgs`: the normalised, de-duplicated flag names. */
  function NormalisedArgs(argMap: seq<ProcessArg>, argv: seq<string>): (r: seq<string>)
    requires WellFormed(argMap)
    ensures AllNames(argMap, r)
  {
    var flags := KeepValid(argMap, DropFirstTwo(argv));
    var names := NormaliseAll(argMap, flags);
    NormalisedAreNames(argMap, flags);
    NamesKeptByDedupe(argMap, names);
    Dedupe(names)
  }

  /** Every element of `s` is the name of some entry of the table. */
  predicate AllNames(argMap: seq<ProcessArg>, s: seq<string>) {
    forall k :: 0 <= k < |s| ==> exists i :: 0 <= i < |argMap| && s[k] == argMap[i].name
  }

  lemma NormalisedAreNames(argMap: seq<ProcessArg>, flags: seq<string>)
    requires WellFormed(argMap) && forall a :: a in flags ==> a in ValidArgs(argMap)
    ensures AllNames(argMap, NormaliseAll(argMap, flags))
  {
    var names := NormaliseAll(argMap, flags);
    forall k | 0 <= k < |names|
      ensures exists i :: 0 <= i < |argMap| && names[k] == argMap[i].name
    {
      assert names[k] == Normalise(argMap, flags[k]);
    }
  }

  lemma NamesKeptByDedupe(argMap: seq<ProcessArg>, names: seq<string>)
    requires AllNames(argMap, names)
    ensures AllNames(argMap, Dedupe(names))
  {
    var r := Dedupe(names);
    forall k | 0 <= k < |r|
      ensures exists i :: 0 <= i < |argMap| && r[k] == argMap[i].name
    {
      assert r[k] in names;
      var m :| 0 <= m < |names| && names[m] == r[k];
    }
  }

  /** The executable and the script path are never looked at. */
  lemma FirstTwoIgnored(argMap: seq<ProcessArg>, a: string, b: string, c: string, d: string, rest: seq<string>)
    requires WellFormed(argMap)
    ensures NormalisedArgs(argMap, [a, b] + rest) == NormalisedArgs(argMap, [c, d] + rest)
    ensures |NormalisedArgs(argMap, [a, b])| == 0
  {
    assert ([a, b] + rest)[2..] == rest == ([c, d] + rest)[2..];
  }

  /** The normalised list holds table names only, each once, in first-occurrence order. */
  lemma NormalisedArgsShape(argMap: seq<ProcessArg>, argv: seq<string>)
    requires WellFormed(argMap)
    ensures var args := NormalisedArgs(argMap, argv);
      && NoDuplicates(args)
      && (forall k :: 0 <= k < |args| ==> exists i :: 0 <= i < |argMap| && args[k] == argMap[i].name)
  {
    var flags := KeepValid(argMap, DropFirstTwo(argv));
    var names := NormaliseAll(argMap, flags);
    DedupeIsSetOrder(names);
    var args := NormalisedArgs(argMap, argv);
    forall k | 0 <= k < |args|
      ensures exists i :: 0 <= i < |argMap| && args[k] == argMap[i].name
    {
      assert args[k] in names;
      var m :| 0 <= m < |names| && names[m] == args[k];
      NormaliseIsName(argMap, flags[m]);
    }
  }

  /**
   * An entry's name is among the normalised arguments exactly when its long
   * flag, or its short flag, was passed after the first two arguments.
   */
  lemma NameSelected(argMap: seq<ProcessArg>, argv: seq<string>, i: nat)
    requires WellFormed(argMap) && i < |argMap|
    ensures argMap[i].name in NormalisedArgs(argMap, argv) <==>
      LongFlag(argMap[i]) in DropFirstTwo(argv) || (HasAlias(argMap[i]) && ShortFlag(argMap[i]) in DropFirstTwo(argv))
  {
    var rest := DropFirstTwo(argv);
    var flags := KeepValid(argMap, rest);
    var names := NormaliseAll(argMap, flags);
    DedupeIsSetOrder(names);
    NameAmongNormalised(argMap, flags, i);
    NormaliseLongFlag(argMap, i);
    if HasAlias(argMap[i]) {
      NormaliseShortFlag(argMap, i);
    }
  }

  /** Over valid flags only: a name is produced exactly when one of its entry's flags is present. */
  lemma NameAmongNormalised(argMap: seq<ProcessArg>, flags: seq<string>, i: nat)
    requires WellFormed(argMap) && i < |argMap| && forall a :: a in flags ==> a in ValidArgs(argMap)
    ensures argMap[i].name in NormaliseAll(argMap, flags) <==>
      LongFlag(argMap[i]) in flags || (HasAlias(argMap[i]) && ShortFlag(argMap[i]) in flags)
  {
    var names := NormaliseAll(argMap, flags);
    var e := argMap[i];
    if e.name in names {
      var m :| 0 <= m < |names| && names[m] == e.name;
      var f := flags[m];
      NormaliseIsName(argMap, f);
      var j :| 0 <= j < |argMap| && Normalise(argMap, f) == argMap[j].name
        && (f == LongFlag(argMap[j]) || (HasAlias(argMap[j]) && f == ShortFlag(argMap[j])));
      assert argMap[j].name == e.name;
      assert j == i;
    }
    if LongFlag(e) in flags {
      NormaliseLongFlag(argMap, i);
      var m :| 0 <= m < |flags| && flags[m] == LongFlag(e);
      assert names[m] == e.name;
    }
    if HasAlias(e) && ShortFlag(e) in flags {
      NormaliseShortFlag(argMap, i);
      var m :| 0 <= m < |flags| && flags[m] == ShortFlag(e);
      assert names[m] == e.name;
    }
  }

  /** `.filter` keeps what it keeps in order, repeats included: it distributes over concatenation. */
  lemma {:induction false} KeepValidAppend(argMap: seq<ProcessArg>, a: seq<string>, b: seq<string>)
    ensures KeepValid(argMap, a + b) == KeepValid(argMap, a) + KeepValid(argMap, b)
  {
    if a == [] {
      assert a + b == b;
    } else {
      assert (a + b)[0] == a[0] && (a + b)[1..] == a[1..] + b;
      KeepValidAppend(argMap, a[1..], b);
    }
  }

  lemma KeepValidSingle(argMap: seq<ProcessArg>, x: string)
    ensures KeepValid(argMap, [x]) == if x in ValidArgs(argMap) then [x] else []
  {
  }

  /** Whether `a` is a valid flag that normalises to `n`. */
  predicate StandsFor(argMap: seq<ProcessArg>, a: string, n: string)
    requires WellFormed(argMap)
  {
    a in ValidArgs(argMap) && Normalise(argMap, a) == n
  }

  /** The flags that stand for an entry's name are exactly its `--name` and its `-alias`. */
  lemma StandsForEntry(argMap: seq<ProcessArg>, a: string, i: nat)
    requires WellFormed(argMap) && i < |argMap|
    ensures StandsFor(argMap, a, argMap[i].name) <==>
      a == LongFlag(argMap[i]) || (HasAlias(argMap[i]) && a == ShortFlag(argMap[i]))
  {
    if StandsFor(argMap, a, argMap[i].name) {
      NormaliseIsName(argMap, a);
      var j :| 0 <= j < |argMap| && Normalise(argMap, a) == argMap[j].name
        && (a == LongFlag(argMap[j]) || (HasAlias(argMap[j]) && a == ShortFlag(argMap[j])));
      assert j == i;
    }
    NormaliseLongFlag(argMap, i);
    if HasAlias(argMap[i]) {
      NormaliseShortFlag(argMap, i);
    }
  }

  /** The position in `rest` of the first flag standing for `n`, or `|rest|` when there is none. */
  function FirstFlagAt(argMap: seq<ProcessArg>, rest: seq<string>, n: string): (p: nat)
    requires WellFormed(argMap)
    ensures p <= |rest|
    ensures p < |rest| ==> StandsFor(argMap, rest[p], n)
    ensures forall k :: 0 <= k < p ==> !StandsFor(argMap, rest[k], n)
  {
    if rest == [] then 0
    else if StandsFor(argMap, rest[0], n) then 0
    else 1 + FirstFlagAt(argMap, rest[1..], n)
  }

  /** Names that come first among the normalised flags have their first flag earlier in `rest`. */
  lemma {:induction false} FirstFlagOrder(argMap: seq<ProcessArg>, rest: seq<string>, n: string, m: string)
    requires WellFormed(argMap)
    ensures var names := NormaliseAll(argMap, KeepValid(argMap, rest));
      FirstIndex(names, n) < FirstIndex(names, m) ==> FirstFlagAt(argMap, rest, n) < FirstFlagAt(argMap, rest, m)
  {
    if rest != [] {
      FirstFlagOrder(argMap, rest[1..], n, m);
      NamesOfCons(argMap, rest);
      FirstIndexCons(NormaliseAll(argMap, KeepValid(argMap, rest)), n);
      FirstIndexCons(NormaliseAll(argMap, KeepValid(argMap, rest)), m);
      FirstFlagAtCons(argMap, rest, n);
      FirstFlagAtCons(argMap, rest, m);
    }
  }

  lemma FirstIndexCons(s: seq<string>, y: string)
    ensures s != [] ==> FirstIndex(s, y) == if s[0] == y then 0 else 1 + FirstIndex(s[1..], y)
  {
  }

  lemma FirstFlagAtCons(argMap: seq<ProcessArg>, rest: seq<string>, y: string)
    requires WellFormed(argMap) && rest != []
    ensures FirstFlagAt(argMap, rest, y) ==
      if rest[0] in ValidArgs(argMap) && Normalise(argMap, rest[0]) == y then 0 else 1 + FirstFlagAt(argMap, rest[1..], y)
  {
  }

  /** The normalised flags of `rest`: those of its first element, then those of the others. */
  lemma NamesOfCons(argMap: seq<ProcessArg>, rest: seq<string>)
    requires WellFormed(argMap) && rest != []
    ensures var names := NormaliseAll(argMap, KeepValid(argMap, rest));
      var tail := NormaliseAll(argMap, KeepValid(argMap, rest[1..]));
      if rest[0] in ValidArgs(argMap) then names != [] && names[0] == Normalise(argMap, rest[0]) && names[1..] == tail
      else names == tail
  {
    var tailFlags := KeepValid(argMap, rest[1..]);
    if rest[0] in ValidArgs(argMap) {
      var flags := [rest[0]] + tailFlags;
      assert KeepValid(argMap, rest) == flags;
      assert flags[1..] == tailFlags;
    } else {
      assert KeepValid(argMap, rest) == tailFlags;
    }
  }

  /** A name among the normalised flags has a flag in `rest` standing for it. */
  lemma FlagPresent(argMap: seq<ProcessArg>, rest: seq<string>, x: string)
    requires WellFormed(argMap) && x in NormaliseAll(argMap, KeepValid(argMap, rest))
    ensures FirstFlagAt(argMap, rest, x) < |rest|
  {
    var flags := KeepValid(argMap, rest);
    var names := NormaliseAll(argMap, flags);
    var m :| 0 <= m < |names| && names[m] == x;
    assert flags[m] in rest;
    var p :| 0 <= p < |rest| && rest[p] == flags[m];
    assert StandsFor(argMap, rest[p], x);
  }

  /**
   * `args` is in first-occurrence order all the way from `argv`: of two
   * normalised arguments, the earlier one is the one whose first flag comes
   * earlier after the first two arguments, and every one has such a flag.
   */
  lemma NormalisedArgsOrder(argMap: seq<ProcessArg>, argv: seq<string>, i: nat, j: nat)
    requires WellFormed(argMap)
    ensures var args := NormalisedArgs(argMap, argv);
      var rest := DropFirstTwo(argv);
      i < j < |args| ==>
        FirstFlagAt(argMap, rest, args[i]) < FirstFlagAt(argMap, rest, args[j]) < |rest|
  {
    var rest := DropFirstTwo(argv);
    var names := NormaliseAll(argMap, KeepValid(argMap, rest));
    DedupeIsSetOrder(names);
    var args := NormalisedArgs(argMap, argv);
    if i < j < |args| {
      FirstFlagOrder(argMap, rest, args[i], args[j]);
      assert args[j] in names;
      FlagPresent(argMap, rest, args[j]);
    }
  }

  // ---------------------------------------------------------------------------
  // Outcome

  /** What `handleArgs` ends in: exit after help or after a reset, or go on with the bot. */
  datatype ArgsOutcome = ExitAfterHelp(lines: seq<string>) | ExitAfterReset | Continue(skipDeploy: bool)

  const HelpHeader: string := "Command line arguments help:"
  const NoDescription: string := "No argument description."

  /** The flag line of the help: the long flag, then the short flag where there is one. */
  function FlagLine(a: ProcessArg): string {
    LongFlag(a) + if HasAlias(a) then ", " + ShortFlag(a) else ""
  }

  function DescriptionLine(a: ProcessArg): string {
    if a.description.Some? then a.description.value else NoDescription
  }

  /** The help printout: a header, then a blank line, the flags and the description of every entry. */
  method PrintHelp(argMap: seq<ProcessArg>) returns (lines: seq<string>)
    ensures |lines| == 1 + 3 * |argMap| && lines[0] == HelpHeader
    ensures forall i :: 0 <= i < |argMap| ==>
      lines[1 + 3 * i] == "" && lines[2 + 3 * i] == FlagLine(argMap[i]) && lines[3 + 3 * i] == DescriptionLine(argMap[i])
  {
    lines := [HelpHeader];
    for k := 0 to |argMap|
      invariant |lines| == 1 + 3 * k && lines[0] == HelpHeader
      invariant forall i :: 0 <= i < k ==>
        lines[1 + 3 * i] == "" && lines[2 + 3 * i] == FlagLine(argMap[i]) && lines[3 + 3 * i] == DescriptionLine(argMap[i])
    {
      var arg := argMap[k];
      lines := lines + [""];
      lines := lines + [FlagLine(arg)];
      lines := lines + [DescriptionLine(arg)];
    }
  }

  /** The spellings of the three flags of the table. */
  lemma ArgMapFlags()
    ensures ArgMap[0].name == "help" && LongFlag(ArgMap[0]) == "--help" && HasAlias(ArgMap[0]) && ShortFlag(ArgMap[0]) == "-h"
    ensures ArgMap[1].name == "skip-deploy" && LongFlag(ArgMap[1]) == "--skip-deploy" && HasAlias(ArgMap[1]) && ShortFlag(ArgMap[1]) == "-s"
    ensures ArgMap[2].name == "reset-commands" && LongFlag(ArgMap[2]) == "--reset-commands" && HasAlias(ArgMap[2]) && ShortFlag(ArgMap[2]) == "-r"
    ensures FlagLine(ArgMap[0]) == "--help, -h"
  {
  }

  /** Which of the three names the normalised arguments hold, in terms of the flags passed. */
  lemma ArgMapSelections(processArgs: seq<string>)
    ensures WellFormed(ArgMap)
    ensures var args := NormalisedArgs(ArgMap, processArgs);
      var rest := DropFirstTwo(processArgs);
      && ("help" in args <==> "--help" in rest || "-h" in rest)
      && ("skip-deploy" in args <==> "--skip-deploy" in rest || "-s" in rest)
      && ("reset-commands" in args <==> "--reset-commands" in rest || "-r" in rest)
  {
    ArgMapWellFormed();
    ArgMapFlags();
    NameSelected(ArgMap, processArgs, 0);
    NameSelected(ArgMap, processArgs, 1);
    NameSelected(ArgMap, processArgs, 2);
  }

  /**
   * `handleArgs`: help wins over everything (the help block that follows it
   * can never run), a reset comes next, otherwise the bot starts, skipping
   * the deploy exactly when `--skip-deploy` or `-s` was passed.
   */
  method HandleArgs(processArgs: seq<string>) returns (r: ArgsOutcome)
    ensures r.ExitAfterHelp? <==> "--help" in DropFirstTwo(processArgs) || "-h" in DropFirstTwo(processArgs)
    ensures r.ExitAfterReset? <==>
              (!r.ExitAfterHelp? && ("--reset-commands" in DropFirstTwo(processArgs) || "-r" in DropFirstTwo(processArgs)))
    ensures r.Continue? ==>
      (r.skipDeploy <==> "--skip-deploy" in DropFirstTwo(processArgs) || "-s" in DropFirstTwo(processArgs))
    ensures r.ExitAfterHelp? ==> |r.lines| == 1 + 3 * |ArgMap| && r.lines[0] == HelpHeader
    ensures r.ExitAfterHelp? ==> forall i :: 0 <= i < |ArgMap| ==>
      r.lines[1 + 3 * i] == "" && r.lines[2 + 3 * i] == FlagLine(ArgMap[i]) && r.lines[3 + 3 * i] == DescriptionLine(ArgMap[i])
    ensures r.ExitAfterHelp? ==> r.lines[2] == "--help, -h"
  {
    ArgMapWellFormed();
    var args := NormalisedArgs(ArgMap, processArgs);
    ArgMapSelections(processArgs);
    if "help" in args {
      var lines := PrintHelp(ArgMap);
      ArgMapFlags();
      return ExitAfterHelp(lines);
    }
    if "reset-commands" in args {
      return ExitAfterReset;
    }
    return Continue("skip-deploy" in args);
  }
}
