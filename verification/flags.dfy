/**
 The command line after the program name: zero or more "-t" flags and then
 the input source, which is always the LAST argument.
 */
module Flags {

  /** The only flag: trust mode, which skips read-back verification. */
  const TrustFlag: string := "-t"

  /** What the command line asks for. */
  datatype Command =
    | Usage                                  // print usage and exit with -1
    | Burn(doVerify: bool, source: string)   // program the chip from `source`

  /**
   Reference reading of `args` with the verify flag currently `doVerify`:
   while more than one argument remains, the first must be "-t".
   */
  function ParseFrom(args: seq<string>, doVerify: bool): (c: Command)
    ensures c.Burn? <==> |args| >= 1 && forall i :: 0 <= i < |args| - 1 ==> args[i] == TrustFlag
    ensures c.Burn? ==> c.source == args[|args| - 1]
    ensures c.Burn? ==> (c.doVerify <==> doVerify && |args| == 1)
    decreases |args|
  {
    if |args| > 1 then
      if args[0] == TrustFlag then ParseFrom(args[1..], false) else Usage
    else if |args| == 1 then Burn(doVerify, args[0])
    else Usage
  }

  /** The command denoted by `args`; verification is on unless a flag turns it off. */
  function Parse(args: seq<string>): (c: Command)
    ensures c.Usage? <==> |args| == 0 || exists i :: 0 <= i < |args| - 1 && args[i] != TrustFlag
    ensures c.Burn? ==> c.source == args[|args| - 1]
    ensures c.Burn? ==> (!c.doVerify <==> TrustFlag in args[..|args| - 1])
  {
    var c := ParseFrom(args, true);
    assert c.Burn? && |args| > 1 ==> args[..|args| - 1][0] == TrustFlag;
    c
  }

  /**
   The flag loop as written: it consumes arguments from the front while more
   than one is left, stops with usage at the first that is not "-t", and then
   insists that exactly one argument remains.
   */
  method ParseArgs(args: seq<string>) returns (c: Command)
    ensures c == Parse(args)
  {
    var doVerify := true;
    var rest := args;
    while |rest| > 1
      invariant ParseFrom(rest, doVerify) == ParseFrom(args, true)
      decreases |rest|
    {
      var flag := rest[0];
      rest := rest[1..];
      if flag == TrustFlag {
        doVerify := false;
      } else {
        return Usage;
      }
    }
    if |rest| != 1 {
      return Usage;
    }
    c := Burn(doVerify, rest[0]);
  }

  /** Giving "-t" again changes nothing, provided a source still follows. */
  lemma RepeatedTrustIsIdempotent(args: seq<string>)
    requires |args| >= 1
    ensures Parse([TrustFlag, TrustFlag] + args) == Parse([TrustFlag] + args)
  {
    assert ([TrustFlag, TrustFlag] + args)[1..] == [TrustFlag] + args;
    assert ([TrustFlag] + args)[1..] == args;
  }

  /** A lone "-t" is not a flag: it is taken as the input source, with verification on. */
  lemma LoneTrustIsSource()
    ensures Parse([TrustFlag]) == Burn(true, TrustFlag)
  {
  }
}
