/** Files that are not what was logged. A file whose end is missing may be cut off; a file with
    something wrong in it is never cut off, but ends the process, whatever the options say. */
module AofBadFiles {
  import opened AofLoader
  import opened Common

  /** The whole commands in front have been executed or queued when the loader gets to the rest. */
  lemma {:induction false} ReadsOn(file: seq<byte>, pos: nat, c: Client, cs: seq<Command>, rest: seq<byte>, o: Options)
    requires Loadable(cs, o) && pos <= |file| && file[pos..] == EncodeAll(cs) + rest
    ensures (forall i :: 0 <= i < |cs| ==> cs[i] != [])
    ensures var end := pos + |EncodeAll(cs)|;
            && end <= |file| && file[end..] == rest
            && LoadFrom(file, pos, c, o) == LoadFrom(file, end, RanAll(c, cs, pos), o)
    decreases |cs|
  {
    hide Encode, ReadCommand, Fits, Lower, Ran;
    NotEmpty(cs, o);
    if cs == [] {
      assert EncodeAll(cs) + rest == rest;
    } else {
      var first, tail := Encode(cs[0]), EncodeAll(cs[1..]) + rest;
      assert file[pos..] == first + tail;
      CommandReads(cs[0], tail);
      assert file[pos + |first|..] == tail;
      ReadsOn(file, pos + |first|, Ran(c, cs[0], pos), cs[1..], rest, o);
    }
  }

  /** The loader is at `rest` behind the commands `cs`. */
  lemma LoadReadsOn(cs: seq<Command>, rest: seq<byte>, o: Options)
    requires Loadable(cs, o) && rest != [] && (cs == [] ==> !(REDIS <= rest))
    ensures (forall i :: 0 <= i < |cs| ==> cs[i] != [])
    ensures var file, end := EncodeAll(cs) + rest, |EncodeAll(cs)|;
            && file[end..] == rest
            && Load(file, o) == LoadFrom(file, end, RanAll(NEW_CLIENT, cs, 0), o)
  {
    hide EncodeAll, LoadFrom, RanAll, Loadable;
    var file := EncodeAll(cs) + rest;
    assert file[0..] == file;
    if cs == [] {
      assert file == rest by { NothingInFront(rest); }
    } else {
      StartsWithStar(cs);
    }
    ReadsOn(file, 0, NEW_CLIENT, cs, rest, o);
  }

  lemma NothingInFront(rest: seq<byte>)
    ensures EncodeAll([]) + rest == rest
  {
  }

  lemma StartsWithStar(cs: seq<Command>)
    requires cs != []
    ensures EncodeAll(cs) != [] && EncodeAll(cs)[0] == STAR
  {
  }

  /** Ways in which the rest of a file can be wrong. */
  datatype Fault =
    | NoCommand                                    // does not begin with '*'
    | NoCount                                      // a NUL in place of the count
    | NoArguments                                  // a count of zero
    | NoLength(count: nat, args: seq<Arg>)         // an argument that does not begin with '$'
    | UnknownName(cmd: Command)                    // no such command

  ghost predicate Faulty(fault: Fault, rest: seq<byte>, o: Options) {
    match fault
    case NoCommand => rest != [] && rest[0] != STAR
    case NoCount => [STAR, 0, LF] <= rest
    case NoArguments => EncodeLine(STAR, 0) <= rest
    case NoLength(count, args) =>
      && |args| < count < INT_LIMIT && (forall i :: 0 <= i < |args| ==> |args[i]| < LONG_LIMIT)
      && var head := EncodeLine(STAR, count) + EncodeArgs(args);
         head < rest && rest[|head|] != DOLLAR
    case UnknownName(cmd) => Fits(cmd) && Lower(cmd[0]) !in o.known && Encode(cmd) <= rest
  }

  lemma NotACommand(rest: seq<byte>)
    requires rest != [] && rest[0] != STAR
    ensures ReadCommand(rest) == Malformed
  {
    var l := Fgets(rest);
    assert l.text[0] == rest[0];
  }

  lemma NulSeen(rest: seq<byte>)
    requires [STAR, 0, LF] <= rest
    ensures ReadCommand(rest) == Unrecoverable
  {
    assert rest[0] == STAR && rest[1..][0] == 0 && rest[1..][1..][0] == LF;
    assert LineLength(rest[1..][1..], LINE_MAX - 2) == 1;
    assert LineLength(rest[1..], LINE_MAX - 1) == 2;
    assert LineLength(rest, LINE_MAX) == 3;
  }

  lemma NoneAsked(tail: seq<byte>)
    ensures ReadCommand(EncodeLine(STAR, 0) + tail) == Malformed
  {
    hide EncodeLine, Strtol, Fgets;
    HeaderReads(STAR, 0, tail);
    KindFirst(STAR, 0);
  }

  lemma {:induction false} ArgsStop(args: seq<Arg>, n: nat, bad: seq<byte>)
    requires |args| < n && (forall i :: 0 <= i < |args| ==> |args[i]| < LONG_LIMIT)
    requires bad != [] && bad[0] != DOLLAR
    ensures ReadArgs(EncodeArgs(args) + bad, n) == Malformed
    decreases |args|
  {
    hide EncodeArg, ReadArg;
    if args == [] {
      assert EncodeArgs(args) + bad == bad;
      NotAnArgument(bad);
    } else {
      var rest := EncodeArgs(args[1..]) + bad;
      assert EncodeArgs(args) + bad == EncodeArg(args[0]) + rest;
      ArgReads(args[0], rest);
      ArgsStop(args[1..], n - 1, bad);
    }
  }

  lemma NotAnArgument(s: seq<byte>)
    requires s != [] && s[0] != DOLLAR
    ensures ReadArg(s) == Malformed
  {
    var l := Fgets(s);
    assert l.text[0] == s[0];
  }

  lemma BadArguments(count: nat, args: seq<Arg>, bad: seq<byte>)
    requires |args| < count < INT_LIMIT && (forall i :: 0 <= i < |args| ==> |args[i]| < LONG_LIMIT)
    requires bad != [] && bad[0] != DOLLAR
    ensures ReadCommand(EncodeLine(STAR, count) + EncodeArgs(args) + bad) == Malformed
  {
    hide EncodeLine, EncodeArgs, ReadArgs, Strtol, Fgets;
    var rest := EncodeArgs(args) + bad;
    assert EncodeLine(STAR, count) + EncodeArgs(args) + bad == EncodeLine(STAR, count) + rest;
    HeaderReads(STAR, count, rest);
    KindFirst(STAR, count);
    ArgsStop(args, count, bad);
  }

  lemma FaultIsSeen(fault: Fault, rest: seq<byte>, o: Options)
    requires Faulty(fault, rest, o)
    ensures var r := ReadCommand(rest);
            r == Malformed || r == Unrecoverable || (r.Got? && Lower(r.value[0]) !in o.known)
  {
    hide ReadCommand, EncodeLine, EncodeArgs, Encode, Lower;
    match fault
    case NoCommand => NotACommand(rest);
    case NoCount => NulSeen(rest);
    case NoArguments =>
      var head := EncodeLine(STAR, 0);
      assert rest == head + rest[|head|..];
      NoneAsked(rest[|head|..]);
    case NoLength(count, args) =>
      var head := EncodeLine(STAR, count) + EncodeArgs(args);
      assert rest == head + rest[|head|..];
      BadArguments(count, args, rest[|head|..]);
    case UnknownName(cmd) =>
      assert rest == Encode(cmd) + rest[|Encode(cmd)|..];
      CommandReads(cmd, rest[|Encode(cmd)|..]);
  }

  /** Whole commands followed by something wrong: the commands are executed and the process exits,
      also if the loader may cut off files. */
  lemma FaultyFileExits(cs: seq<Command>, fault: Fault, rest: seq<byte>, o: Options)
    requires Loadable(cs, o) && Faulty(fault, rest, o) && (cs == [] ==> !(REDIS <= rest))
    ensures (forall i :: 0 <= i < |cs| ==> cs[i] != [])
    ensures Load(EncodeAll(cs) + rest, o) == Exits(RanAll(NEW_CLIENT, cs, 0).done)
  {
    hide EncodeAll, Load, Loadable, RanAll, Faulty, ReadCommand, Lower;
    FaultIsSeen(fault, rest, o);
    assert rest != [] by { NothingLeft(); }
    LoadReadsOn(cs, rest, o);
  }

  /** A file whose end is missing, in contrast, is loaded if and only if it may be cut off and that
      works, unless it ends behind a command and no transaction is open. */
  lemma CutFileLoadsIf(cs: seq<Command>, k: nat, o: Options)
    requires Loadable(cs, o) && 0 < k <= |EncodeAll(cs)|
    ensures (forall i :: 0 <= i < |cs| ==> cs[i] != [])
    ensures var r, m := Load(EncodeAll(cs)[..k], o), Whole(cs, k);
            var c := RanAll(NEW_CLIENT, cs[..m], 0);
            && (r.Loaded? || r.Exits?) && r.commands == c.done
            && (r.Loaded? <==> (k == |EncodeAll(cs[..m])| && c.queue.None?) || (o.loadTruncated && o.truncates))
  {
    hide EncodeAll, Load, Loadable, RanAll, Whole;
    CutFileLoads(cs, k, o);
    WholeIsMost(cs, k);
  }
}
