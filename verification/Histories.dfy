/** What a sequence of commands has set, counted and collected. */
module Histories {
  import opened Wrappers
  import opened Canonical
  import opened Runtime

  /** The requests that went straight into the environment, in the order they were burned. */
  function Commands<E>(burns: seq<Burn<E>>): seq<Request>
  {
    if burns == [] then []
    else Commands(burns[..|burns|-1]) + (if burns[|burns|-1].direct then [burns[|burns|-1].request] else [])
  }

  /** What the last command that sets it has set; `initial` if none has. */
  function Latest<V>(commands: seq<Request>, sets: Request -> Option<V>, initial: V): V
  {
    if commands == [] then initial
    else if sets(commands[|commands|-1]).Some? then sets(commands[|commands|-1]).value
    else Latest(commands[..|commands|-1], sets, initial)
  }

  function Count(commands: seq<Request>, counts: Request -> bool): nat
  {
    if commands == [] then 0
    else Count(commands[..|commands|-1], counts) + (if counts(commands[|commands|-1]) then 1 else 0)
  }

  function Collected<V>(commands: seq<Request>, adds: Request -> Option<V>): seq<V>
  {
    if commands == [] then []
    else
      var last := adds(commands[|commands|-1]);
      Collected(commands[..|commands|-1], adds) + (if last.Some? then [last.value] else [])
  }

  lemma CommandsNext<E>(burns: seq<Burn<E>>, n: nat)
    requires n < |burns|
    ensures Commands(burns[..n+1]) == Commands(burns[..n]) + (if burns[n].direct then [burns[n].request] else [])
  {
    assert burns[..n+1][..n] == burns[..n] && burns[..n+1][n] == burns[n];
  }

  lemma LatestNext<V>(commands: seq<Request>, r: Request, sets: Request -> Option<V>, initial: V)
    ensures Latest(commands + [r], sets, initial) ==
      if sets(r).Some? then sets(r).value else Latest(commands, sets, initial)
  {
    assert (commands + [r])[..|commands|] == commands;
  }

  lemma CountNext(commands: seq<Request>, r: Request, counts: Request -> bool)
    ensures Count(commands + [r], counts) == Count(commands, counts) + (if counts(r) then 1 else 0)
  {
    assert (commands + [r])[..|commands|] == commands;
  }

  lemma CollectedNext<V>(commands: seq<Request>, r: Request, adds: Request -> Option<V>)
    ensures Collected(commands + [r], adds) ==
      Collected(commands, adds) + (if adds(r).Some? then [adds(r).value] else [])
  {
    assert (commands + [r])[..|commands|] == commands;
  }

  /** The last writer wins. */
  lemma {:induction false} LatestMeaning<V>(commands: seq<Request>, sets: Request -> Option<V>, initial: V)
    ensures
      || (Latest(commands, sets, initial) == initial && forall j | 0 <= j < |commands| :: sets(commands[j]).None?)
      || exists i ::
           && 0 <= i < |commands| && sets(commands[i]) == Some(Latest(commands, sets, initial))
           && forall j | i < j < |commands| :: sets(commands[j]).None?
  {
    if commands != [] {
      var init, last := commands[..|commands|-1], |commands| - 1;
      if sets(commands[last]).None? {
        LatestMeaning(init, sets, initial);
        if i :| && 0 <= i < |init| && sets(init[i]) == Some(Latest(init, sets, initial))
                && forall j | i < j < |init| :: sets(init[j]).None? {
          assert commands[i] == init[i];
          forall j | i < j < |commands| ensures sets(commands[j]).None? {
            if j < last { assert commands[j] == init[j]; }
          }
        } else {
          forall j | 0 <= j < |commands| ensures sets(commands[j]).None? {
            if j < last { assert commands[j] == init[j]; }
          }
        }
      } else {
        assert sets(commands[last]) == Some(Latest(commands, sets, initial));
      }
    }
  }
}
