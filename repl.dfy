/**
  One turn of the REPL in main.go: tokenize the line, skip it when empty, look the
  first word up in the command registry and run the command with the other words
  as its arguments, or report an unknown command.
*/
module Repl {
  import opened Wrappers
  import opened Input
  import opened PokeCache
  import opened Pagination

  datatype Command = Exit | Help | Map | MapBack

  /** The command registry built by `init`. */
  const Registry: map<string, Command> := map["exit" := Exit, "help" := Help, "map" := Map, "mapb" := MapBack]

  /** What a line asks for. */
  datatype Action = Skip | Unknown(name: string) | Run(command: Command, args: seq<string>)

  /** The dispatch of `main`: the first word names the command, the rest are its arguments. */
  function Dispatch(words: seq<string>): (a: Action)
    ensures a.Skip? <==> words == []
    ensures a.Unknown? <==> words != [] && words[0] !in Registry
    ensures a.Unknown? ==> a.name == words[0]
    ensures a.Run? ==> words[0] in Registry && a.command == Registry[words[0]] && a.args == words[1..]
  {
    if words == [] then Skip
    else if words[0] in Registry then Run(Registry[words[0]], words[1..])
    else Unknown(words[0])
  }

  /**
    A line typed as a name followed by arguments, in any letter case and with any
    white space around and between the words, runs the command the lower-cased name
    registers, with the lower-cased arguments; a name not registered is unknown.
  */
  lemma DispatchTyped(name: string, args: seq<string>, gaps: seq<string>)
    requires IsWord(name) && AllWords(args) && ValidGaps(gaps, |args| + 1)
    ensures Dispatch(CleanInput(Spaced([name] + args, gaps)))
         == if ToLower(name) in Registry then Run(Registry[ToLower(name)], LowerAll(args))
            else Unknown(ToLower(name))
  {
    var ws := [name] + args;
    assert AllWords(ws) by {
      assert forall i :: 0 < i < |ws| ==> ws[i] == args[i - 1];
    }
    CleanInputLowersWords(ws, gaps);
    assert ws[1..] == args;
  }

  /**
    The registry holds exactly the four command names, and each name, typed alone
    with any white space around it, runs the command registered under it.
  */
  lemma RegisteredNamesRun(name: string, before: string, after: string)
    requires AllSpace(before) && AllSpace(after)
    ensures Registry.Keys == {"exit", "help", "map", "mapb"}
    ensures name in Registry ==> Dispatch(CleanInput(before + name + after)) == Run(Registry[name], [])
  {
    if name in Registry {
      assert IsWord(name) && NoUpper(name);
      var gaps := [before, after];
      assert ValidGaps(gaps, 1);
      assert Spaced([name], gaps) == before + name + after;
      CleanInputOfSpaced([name], gaps);
    }
  }

  /** A blank line dispatches nothing. */
  lemma BlankLineSkipped(line: string)
    requires AllSpace(line)
    ensures Dispatch(CleanInput(line)) == Skip
  {
    CleanInputOfBlank(line);
  }

  /**
    One turn of the loop in `main` for the line `input` at time `now`: only `map` and
    `mapb` change the cursor or the cache, and they do so as their specifications say;
    a blank line, an unknown name, `help` and `exit` leave both alone and request nothing.
  */
  method Step(cfg: Config, input: string, now: int,
              fetch: string -> Result<Bytes>, decode: Bytes -> Result<Page>)
    returns (action: Action, requested: Option<string>, err: Option<string>)
    modifies cfg, cfg.cache
    ensures action == Dispatch(CleanInput(input))
    ensures !(action.Run? && action.command in {Map, MapBack}) ==>
      cfg.next == old(cfg.next) && cfg.previous == old(cfg.previous)
      && cfg.cache.entries == old(cfg.cache.entries) && requested == None && err == None
    ensures action.Run? && action.command == Map ==>
      Outcome(cfg.next, cfg.previous, cfg.cache.entries, requested, err)
      == MapStep(old(cfg.next), old(cfg.previous), old(cfg.cache.entries), now, fetch, decode)
    ensures action.Run? && action.command == MapBack ==>
      Outcome(cfg.next, cfg.previous, cfg.cache.entries, requested, err)
      == MapBackStep(old(cfg.next), old(cfg.previous), old(cfg.cache.entries), now, fetch, decode)
  {
    var words := CleanInput(input);
    action := Dispatch(words);
    requested, err := None, None;
    if words == [] {
      return;
    }
    var command := words[0];
    if command in Registry {
      match Registry[command]
      case Map => requested, err := CommandMap(cfg, now, fetch, decode);
      case MapBack => requested, err := CommandMapBack(cfg, now, fetch, decode);
      case Help =>
      case Exit =>
    }
  }
}
