/** The format of the append-only file and its loader. A file that was cut off anywhere loads
    as the whole commands it still holds. */
module AofLoader {
  import opened Common

  /** A byte of a file or of a pipe. */
  type byte = b: int | 0 <= b < 256

  type Arg = seq<byte>
  type Command = seq<Arg>

  const STAR: byte := 42
  const DOLLAR: byte := 36
  const CR: byte := 13
  const LF: byte := 10
  const ZERO: byte := 48

  const INT_LIMIT: int := 0x8000_0000
  const LONG_LIMIT: int := 0x8000_0000_0000_0000

  // -------------------------------------------------------------------------
  // Printing
  // -------------------------------------------------------------------------

  /** The decimal digits that ll2string prints. */
  function Digits(n: nat): (r: seq<byte>)
    ensures r != [] && forall i :: 0 <= i < |r| ==> IsDigit(r[i])
  {
    if n < 10 then [ZERO + n] else Digits(n / 10) + [ZERO + n % 10]
  }

  predicate IsDigit(b: byte) { ZERO <= b <= ZERO + 9 }

  function EncodeLine(kind: byte, n: nat): seq<byte> {
    [kind] + Digits(n) + [CR, LF]
  }

  function EncodeArg(a: Arg): seq<byte> {
    EncodeLine(DOLLAR, |a|) + a + [CR, LF]
  }

  function EncodeArgs(args: seq<Arg>): seq<byte> {
    if args == [] then [] else EncodeArg(args[0]) + EncodeArgs(args[1..])
  }

  function Encode(c: Command): seq<byte> {
    EncodeLine(STAR, |c|) + EncodeArgs(c)
  }

  function EncodeAll(cs: seq<Command>): seq<byte> {
    if cs == [] then [] else Encode(cs[0]) + EncodeAll(cs[1..])
  }

  /** Commands that fit the C types: `int argc`, and lengths that strtol can return. */
  ghost predicate Fits(c: Command) {
    0 < |c| < INT_LIMIT && forall i :: 0 <= i < |c| ==> |c[i]| < LONG_LIMIT
  }

  lemma {:induction false} EncodeArgsAppend(args: seq<Arg>, a: Arg)
    ensures EncodeArgs(args + [a]) == EncodeArgs(args) + EncodeArg(a)
  {
    hide EncodeArg;
    if args == [] {
      assert [a][1..] == [];
      assert [] + [a] == [a];
    } else {
      EncodeArgsAppend(args[1..], a);
      assert (args + [a])[1..] == args[1..] + [a];
    }
  }

  /** catAppendOnlyGenericCommand */
  method CatGenericCommand(dst: seq<byte>, argv: Command) returns (r: seq<byte>)
    ensures r == dst + Encode(argv)
  {
    hide EncodeLine;
    r := dst + EncodeLine(STAR, |argv|);
    ghost var head := r;
    for j := 0 to |argv|
      invariant r == head + EncodeArgs(argv[..j])
    {
      EncodeArgsAppend(argv[..j], argv[j]);
      assert argv[..j + 1] == argv[..j] + [argv[j]];
      ghost var before := r;
      r := r + EncodeLine(DOLLAR, |argv[j]|);
      r := r + argv[j];
      r := r + [CR, LF];
      assert r == before + EncodeArg(argv[j]);
    }
    assert argv[..|argv|] == argv;
  }

  // -------------------------------------------------------------------------
  // Numbers
  // -------------------------------------------------------------------------

  predicate IsSpace(b: byte) { 9 <= b <= 13 || b == 32 }

  /** How many leading bytes satisfy the predicate. */
  function SpaceRun(s: seq<byte>): (n: nat)
    ensures n <= |s|
  {
    if s != [] && IsSpace(s[0]) then 1 + SpaceRun(s[1..]) else 0
  }

  function DigitRun(s: seq<byte>): (n: nat)
    ensures n <= |s| && forall i :: 0 <= i < n ==> IsDigit(s[i])
  {
    if s != [] && IsDigit(s[0]) then 1 + DigitRun(s[1..]) else 0
  }

  function Value(ds: seq<byte>): nat
    requires forall i :: 0 <= i < |ds| ==> IsDigit(ds[i])
  {
    if ds == [] then 0
    else
      assert IsDigit(ds[|ds| - 1]);
      10 * Value(ds[..|ds| - 1]) + (ds[|ds| - 1] - ZERO)
  }

  /** strtol(s, NULL, 10): white space, a sign, digits; clamped. */
  function Strtol(s: seq<byte>): int {
    var t := s[SpaceRun(s)..];
    var negative := t != [] && t[0] == 45;
    var d := if t != [] && (t[0] == 43 || t[0] == 45) then t[1..] else t;
    var v: int := Value(d[..DigitRun(d)]);
    if negative then (if v > LONG_LIMIT then -LONG_LIMIT else -v)
    else if v >= LONG_LIMIT then LONG_LIMIT - 1 else v
  }

  /** atoi: strtol narrowed to int. */
  function Atoi(s: seq<byte>): int {
    (Strtol(s) + INT_LIMIT) % (2 * INT_LIMIT) - INT_LIMIT
  }

  /** The result of strtol stored in an unsigned long. */
  function StrtolUnsigned(s: seq<byte>): nat {
    Strtol(s) % (2 * LONG_LIMIT)
  }

  lemma {:induction false} ValueOfDigits(n: nat)
    ensures Value(Digits(n)) == n
  {
    if n >= 10 {
      ValueOfDigits(n / 10);
      var ds := Digits(n);
      assert ds[..|ds| - 1] == Digits(n / 10);
    }
  }

  /** A number that was cut off is smaller, but a positive one stays positive. */
  lemma {:induction false} ValueOfPrefix(n: nat, k: nat)
    requires 0 < n && 0 < k <= |Digits(n)|
    ensures 1 <= Value(Digits(n)[..k]) <= n
  {
    var ds := Digits(n);
    if k == |ds| {
      assert ds[..k] == ds;
      ValueOfDigits(n);
    } else {
      assert n >= 10;
      assert ds[..k] == Digits(n / 10)[..k];
      ValueOfPrefix(n / 10, k);
    }
  }

  lemma {:induction false} DigitsShort(n: nat, k: nat)
    requires n < Power(k) && 0 < k
    ensures |Digits(n)| <= k
    decreases k
  {
    if n >= 10 { DigitsShort(n / 10, k - 1); }
  }

  function Power(k: nat): nat { if k == 0 then 1 else 10 * Power(k - 1) }

  lemma {:induction false} DigitRunIs(ds: seq<byte>, rest: seq<byte>)
    requires forall i :: 0 <= i < |ds| ==> IsDigit(ds[i])
    requires rest == [] || !IsDigit(rest[0])
    ensures DigitRun(ds + rest) == |ds|
  {
    if ds == [] {
      assert ds + rest == rest;
    } else {
      assert (ds + rest)[1..] == ds[1..] + rest;
      DigitRunIs(ds[1..], rest);
    }
  }

  /** strtol reads back leading digits. */
  lemma StrtolReads(ds: seq<byte>, rest: seq<byte>)
    requires ds != [] && (forall i :: 0 <= i < |ds| ==> IsDigit(ds[i])) && (rest == [] || !IsDigit(rest[0]))
    requires Value(ds) < LONG_LIMIT
    ensures Strtol(ds + rest) == Value(ds)
  {
    DigitRunIs(ds, rest);
    var s := ds + rest;
    assert s[0] == ds[0];
    assert SpaceRun(s) == 0;
    assert s[SpaceRun(s)..] == s;
    assert s[..|ds|] == ds;
  }

  // -------------------------------------------------------------------------
  // Reading
  // -------------------------------------------------------------------------

  /** fgets with a buffer of 128 bytes reads at most 127, and stops behind a newline. */
  const LINE_MAX: nat := 127

  function LineLength(s: seq<byte>, limit: nat): (n: nat)
    ensures n <= |s| && n <= limit && (s != [] && limit > 0 ==> n > 0)
  {
    if s == [] || limit == 0 then 0
    else if s[0] == LF then 1
    else 1 + LineLength(s[1..], limit - 1)
  }

  datatype Line = Line(text: seq<byte>, rest: seq<byte>, eof: bool)

  function Fgets(s: seq<byte>): (l: Line)
    requires s != []
    ensures l.text != [] && s == l.text + l.rest
  {
    var n := LineLength(s, LINE_MAX);
    Line(s[..n], s[n..], n < LINE_MAX && s[n - 1] != LF)
  }

  datatype Read<T> = Got(value: T, rest: seq<byte>) | End | ShortRead | Malformed | Unrecoverable

  function ReadArg(s: seq<byte>): (r: Read<Arg>)
    ensures (r.Got? ==> |r.rest| < |s|) && !r.End? && !r.Unrecoverable?
  {
    if s == [] then ShortRead
    else
      var l := Fgets(s);
      if l.text[0] != DOLLAR then Malformed
      else
        var len := StrtolUnsigned(l.text[1..]);
        if |l.rest| < len then ShortRead
        else if |l.rest| < len + 2 then ShortRead
        else Got(l.rest[..len], l.rest[len + 2..])
  }

  function ReadArgs(s: seq<byte>, n: nat): (r: Read<seq<Arg>>)
    ensures (r.Got? ==> |r.rest| <= |s| && |r.value| == n) && !r.End? && !r.Unrecoverable?
    decreases n
  {
    if n == 0 then Got([], s)
    else match ReadArg(s)
      case Got(a, rest) => Prepend([a], ReadArgs(rest, n - 1))
      case ShortRead => ShortRead
      case Malformed => Malformed
  }

  function Prepend(args: seq<Arg>, r: Read<seq<Arg>>): Read<seq<Arg>> {
    if r.Got? then r.(value := args + r.value) else r
  }

  function ReadCommand(s: seq<byte>): (r: Read<Command>)
    ensures r.Got? ==> |r.rest| < |s| && r.value != []
  {
    if s == [] then End
    else
      var l := Fgets(s);
      if l.text[0] != STAR then Malformed
      else if |l.text| == 1 || l.text[1] == 0 then (if l.eof then ShortRead else Unrecoverable)
      else
        var argc := Atoi(l.text[1..]);
        if argc < 1 then Malformed else ReadArgs(l.rest, argc)
  }

  // -------------------------------------------------------------------------
  // Loading
  // -------------------------------------------------------------------------

  /** `known` are the names of the command table, in lower case. */
  datatype Options = Options(known: set<Arg>, loadTruncated: bool, truncates: bool)

  function LowerByte(b: byte): byte { if 65 <= b <= 90 then b + 32 else b }

  /** Command names are looked up whatever their case. */
  function Lower(name: Arg): Arg { seq(|name|, i requires 0 <= i < |name| => LowerByte(name[i])) }

  const MULTI: Arg := [109, 117, 108, 116, 105]
  const EXEC: Arg := [101, 120, 101, 99]
  const DISCARD: Arg := [100, 105, 115, 99, 97, 114, 100]
  const WATCH: Arg := [119, 97, 116, 99, 104]

  /** DISCARD and WATCH are never logged; what the loader does with them is not part of this
      model. */
  predicate Foreign(name: Arg) { Lower(name) == DISCARD || Lower(name) == WATCH }

  /** What becomes of a file: nothing in it, handed to the RDB loader, loaded (and how long the
      file is now), or the process exits; `commands` are those that were executed. */
  datatype Result =
    | Empty
    | RdbPreamble
    | Unmodelled
    | Loaded(commands: seq<Command>, size: nat)
    | Exits(commands: seq<Command>)

  /** The fake client: the commands it has executed, those queued in a transaction, and the
      offset of the last MULTI. */
  datatype Client = Client(done: seq<Command>, queue: Option<seq<Command>>, before: nat)

  const NEW_CLIENT: Client := Client([], None, 0)

  /** The commands that do something when they are executed one by one: a MULTI in a queue and an
      EXEC outside of a transaction are only answered with an error. */
  function Acting(cs: seq<Command>): seq<Command> {
    if cs == [] then []
    else Acting(cs[..|cs| - 1]) + if IsBracket(cs[|cs| - 1]) then [] else [cs[|cs| - 1]]
  }

  predicate IsBracket(cmd: Command) { cmd != [] && (Lower(cmd[0]) == MULTI || Lower(cmd[0]) == EXEC) }

  /** Executing the command that starts at offset `pos`, or queueing it. */
  function Ran(c: Client, cmd: Command, pos: nat): Client
    requires cmd != []
  {
    var name := Lower(cmd[0]);
    var c := if name == MULTI then c.(before := pos) else c;
    if c.queue.Some? then
      if name != EXEC then c.(queue := Some(c.queue.value + [cmd]))
      else c.(done := c.done + Acting(c.queue.value), queue := None)
    else if name == MULTI then c.(queue := Some([]))
    else if name == EXEC then c
    else c.(done := c.done + [cmd])
  }

  /** An unexpected end of the file: cut it off at `size`, if that is allowed and works. */
  function CutOff(done: seq<Command>, size: nat, o: Options): Result {
    if o.loadTruncated && o.truncates then Loaded(done, size) else Exits(done)
  }

  /** The loader from offset `pos` on, the end of the last command that it read. */
  function LoadFrom(file: seq<byte>, pos: nat, c: Client, o: Options): Result
    requires pos <= |file|
    decreases |file| - pos
  {
    match ReadCommand(file[pos..])
    case End => if c.queue.None? then Loaded(c.done, |file|) else CutOff(c.done, c.before, o)
    case ShortRead => CutOff(c.done, pos, o)
    case Malformed => Exits(c.done)
    case Unrecoverable => Exits(c.done)
    case Got(cmd, rest) =>
      if Lower(cmd[0]) !in o.known then Exits(c.done)
      else if Foreign(cmd[0]) then Unmodelled
      else LoadFrom(file, |file| - |rest|, Ran(c, cmd, pos), o)
  }

  const REDIS: seq<byte> := [82, 69, 68, 73, 83]

  function Load(file: seq<byte>, o: Options): Result {
    if file == [] then Empty
    else if REDIS <= file then RdbPreamble
    else LoadFrom(file, 0, NEW_CLIENT, o)
  }

  // -------------------------------------------------------------------------
  // Whole commands read back
  // -------------------------------------------------------------------------

  lemma {:induction false} LineEnds(h: seq<byte>, tail: seq<byte>, limit: nat)
    requires LF !in h && |h| < limit
    ensures LineLength(h + [LF] + tail, limit) == |h| + 1
  {
    var s := h + [LF] + tail;
    if h == [] {
      assert s[0] == LF;
    } else {
      assert s[0] == h[0] && s[1..] == h[1..] + [LF] + tail;
      LineEnds(h[1..], tail, limit - 1);
    }
  }

  lemma {:induction false} LineCut(s: seq<byte>, limit: nat)
    requires LF !in s && |s| < limit
    ensures LineLength(s, limit) == |s|
  {
    if s != [] { LineCut(s[1..], limit - 1); }
  }

  /** A header line is short, and its only newline is its last byte. */
  lemma HeaderShape(kind: byte, n: nat)
    requires n < LONG_LIMIT && kind != LF
    ensures |EncodeLine(kind, n)| < 30
    ensures EncodeLine(kind, n) == ([kind] + Digits(n) + [CR]) + [LF] && LF !in [kind] + Digits(n) + [CR]
  {
    assert Power(20) > LONG_LIMIT by { PowerTwenty(); }
    DigitsShort(n, 20);
    var h := [kind] + Digits(n) + [CR];
    forall i | 0 <= i < |h| ensures h[i] != LF { if 1 <= i <= |Digits(n)| { assert IsDigit(Digits(n)[i - 1]); } }
  }

  lemma PowerTwenty()
    ensures Power(20) > LONG_LIMIT
  {
    assert Power(5) == 100000;
    assert Power(10) == 10000000000;
    assert Power(15) == 1000000000000000;
  }

  lemma HeaderReads(kind: byte, n: nat, tail: seq<byte>)
    requires n < LONG_LIMIT && kind != LF
    ensures Fgets(EncodeLine(kind, n) + tail) == Line(EncodeLine(kind, n), tail, false)
    ensures Strtol(EncodeLine(kind, n)[1..]) == n
  {
    HeaderShape(kind, n);
    var h := [kind] + Digits(n) + [CR];
    LineEnds(h, tail, LINE_MAX);
    ValueOfDigits(n);
    StrtolReads(Digits(n), [CR, LF]);
    assert EncodeLine(kind, n)[1..] == Digits(n) + [CR, LF];
  }

  lemma UnsignedIs(s: seq<byte>, n: nat)
    requires Strtol(s) == n < LONG_LIMIT
    ensures StrtolUnsigned(s) == n
  {
  }

  lemma ArgReads(a: Arg, tail: seq<byte>)
    requires |a| < LONG_LIMIT
    ensures ReadArg(EncodeArg(a) + tail) == Got(a, tail)
  {
    hide EncodeLine, Strtol, StrtolUnsigned, Fgets;
    var rest := a + [CR, LF] + tail;
    HeaderReads(DOLLAR, |a|, rest);
    KindFirst(DOLLAR, |a|);
    UnsignedIs(EncodeLine(DOLLAR, |a|)[1..], |a|);
    assert EncodeArg(a) + tail == EncodeLine(DOLLAR, |a|) + rest;
    assert rest[..|a|] == a && rest[|a| + 2..] == tail;
  }

  lemma KindFirst(kind: byte, n: nat)
    ensures EncodeLine(kind, n)[0] == kind && |EncodeLine(kind, n)| >= 4 && IsDigit(EncodeLine(kind, n)[1])
  {
  }

  lemma {:induction false} ArgsRead(args: seq<Arg>, tail: seq<byte>)
    requires forall i :: 0 <= i < |args| ==> |args[i]| < LONG_LIMIT
    ensures ReadArgs(EncodeArgs(args) + tail, |args|) == Got(args, tail)
  {
    hide EncodeArg, ReadArg;
    if args == [] {
      assert [] + tail == tail;
    } else {
      var rest := EncodeArgs(args[1..]) + tail;
      assert EncodeArgs(args) + tail == EncodeArg(args[0]) + rest;
      ArgReads(args[0], rest);
      ArgsRead(args[1..], tail);
      assert [args[0]] + args[1..] == args;
    }
  }

  lemma CommandReads(c: Command, tail: seq<byte>)
    requires Fits(c)
    ensures ReadCommand(Encode(c) + tail) == Got(c, tail)
  {
    hide EncodeLine, EncodeArgs, ReadArgs, Strtol;
    var rest := EncodeArgs(c) + tail;
    assert Encode(c) + tail == EncodeLine(STAR, |c|) + rest;
    HeaderReads(STAR, |c|, rest);
    KindFirst(STAR, |c|);
    ArgsRead(c, tail);
  }

  // -------------------------------------------------------------------------
  // Cut-off commands do not read
  // -------------------------------------------------------------------------

  lemma HeaderCut(kind: byte, n: nat, k: nat)
    requires n < LONG_LIMIT && kind != LF && 0 < k < |EncodeLine(kind, n)|
    ensures Fgets(EncodeLine(kind, n)[..k]) == Line(EncodeLine(kind, n)[..k], [], true)
  {
    HeaderShape(kind, n);
    var h := [kind] + Digits(n) + [CR];
    var s := EncodeLine(kind, n)[..k];
    assert s == h[..k];
    LineCut(s, LINE_MAX);
    assert s[|s| - 1] in h;
  }

  lemma ArgCut(a: Arg, k: nat)
    requires |a| < LONG_LIMIT && k < |EncodeArg(a)|
    ensures ReadArg(EncodeArg(a)[..k]) == ShortRead
  {
    hide EncodeLine, Strtol, StrtolUnsigned, Fgets;
    var line := EncodeLine(DOLLAR, |a|);
    var s := EncodeArg(a)[..k];
    KindFirst(DOLLAR, |a|);
    if 0 < k < |line| {
      assert s == line[..k];
      HeaderCut(DOLLAR, |a|, k);
    } else if k >= |line| {
      var rest := (a + [CR, LF])[..k - |line|];
      assert s == line + rest;
      HeaderReads(DOLLAR, |a|, rest);
      UnsignedIs(line[1..], |a|);
    }
  }

  lemma {:induction false} ArgsCut(args: seq<Arg>, k: nat)
    requires (forall i :: 0 <= i < |args| ==> |args[i]| < LONG_LIMIT) && k < |EncodeArgs(args)|
    ensures ReadArgs(EncodeArgs(args)[..k], |args|) == ShortRead
  {
    hide EncodeArg, ReadArg;
    var first := EncodeArg(args[0]);
    var s := EncodeArgs(args)[..k];
    if k < |first| {
      assert s == first[..k];
      ArgCut(args[0], k);
    } else {
      var rest := EncodeArgs(args[1..])[..k - |first|];
      assert s == first + rest;
      ArgReads(args[0], rest);
      ArgsCut(args[1..], k - |first|);
    }
  }

  /** The argument count that is read from a header line that was cut off. */
  lemma CountCut(n: nat, k: nat)
    requires 0 < n < INT_LIMIT && 1 < k < |EncodeLine(STAR, n)|
    ensures 1 <= Atoi(EncodeLine(STAR, n)[..k][1..])
  {
    hide Strtol, Value;
    var ds := Digits(n);
    var s := EncodeLine(STAR, n)[..k][1..];
    var m := if k - 1 < |ds| then k - 1 else |ds|;
    assert s == ds[..m] + [CR, LF][..k - 1 - m];
    ValueOfPrefix(n, m);
    StrtolReads(ds[..m], [CR, LF][..k - 1 - m]);
  }

  lemma CommandCut(c: Command, k: nat)
    requires Fits(c) && 0 < k < |Encode(c)|
    ensures ReadCommand(Encode(c)[..k]) == ShortRead
  {
    hide EncodeLine, EncodeArgs, ReadArg, Strtol, Atoi;
    var line := EncodeLine(STAR, |c|);
    var s := Encode(c)[..k];
    KindFirst(STAR, |c|);
    if k < |line| {
      assert s == line[..k];
      HeaderCut(STAR, |c|, k);
      if k > 1 { CountCut(|c|, k); assert ReadArg([]) == ShortRead by { NothingReads(); } }
    } else {
      var rest := EncodeArgs(c)[..k - |line|];
      assert s == line + rest;
      HeaderReads(STAR, |c|, rest);
      AtoiIs(line[1..], |c|);
      ArgsCut(c, k - |line|);
    }
  }

  lemma NothingReads()
    ensures ReadArg([]) == ShortRead
  {
  }

  lemma AtoiIs(s: seq<byte>, n: nat)
    requires Strtol(s) == n < INT_LIMIT
    ensures Atoi(s) == n
  {
  }

  // -------------------------------------------------------------------------
  // Files
  // -------------------------------------------------------------------------

  /** How many whole commands the first `k` bytes of the encoding hold. */
  ghost function Whole(cs: seq<Command>, k: nat): (m: nat)
    ensures m <= |cs|
  {
    if cs == [] || k < |Encode(cs[0])| then 0 else 1 + Whole(cs[1..], k - |Encode(cs[0])|)
  }

  lemma {:induction false} WholeIsMost(cs: seq<Command>, k: nat)
    requires k <= |EncodeAll(cs)|
    ensures var m := Whole(cs, k);
            |EncodeAll(cs[..m])| <= k && (m < |cs| ==> k < |EncodeAll(cs[..m + 1])|)
  {
    hide Encode;
    if cs != [] {
      var m := Whole(cs, k);
      if k < |Encode(cs[0])| {
        assert cs[..1][0] == cs[0];
      } else {
        WholeIsMost(cs[1..], k - |Encode(cs[0])|);
        assert cs[..m][1..] == cs[1..][..m - 1];
        if m < |cs| { assert cs[..m + 1][1..] == cs[1..][..m]; }
      }
    }
  }

  /** Commands of the table that can be in the file. */
  ghost predicate Loadable(cs: seq<Command>, o: Options) {
    forall i :: 0 <= i < |cs| ==> Fits(cs[i]) && Lower(cs[i][0]) in o.known && !Foreign(cs[i][0])
  }

  /** The client after commands that lie at `pos` and behind. */
  ghost function RanAll(c: Client, cs: seq<Command>, pos: nat): Client
    requires forall i :: 0 <= i < |cs| ==> cs[i] != []
    decreases |cs|
  {
    if cs == [] then c else RanAll(Ran(c, cs[0], pos), cs[1..], pos + |Encode(cs[0])|)
  }

  /** The result for a file of `size` bytes whose last whole command ends at `end`. */
  function Outcome(c: Client, end: nat, size: nat, o: Options): Result {
    if end < size then CutOff(c.done, end, o)
    else if c.queue.Some? then CutOff(c.done, c.before, o)
    else Loaded(c.done, size)
  }

  lemma {:induction false} LoadsWhole(file: seq<byte>, pos: nat, c: Client, cs: seq<Command>, k: nat, o: Options)
    requires Loadable(cs, o) && k <= |EncodeAll(cs)|
    requires pos <= |file| && file[pos..] == EncodeAll(cs)[..k]
    ensures var m := Whole(cs, k);
            LoadFrom(file, pos, c, o) == Outcome(RanAll(c, cs[..m], pos), pos + |EncodeAll(cs[..m])|, |file|, o)
    decreases |cs|
  {
    hide Encode, ReadCommand, Fits, Lower, Ran;
    var rest := file[pos..];
    var m := Whole(cs, k);
    NotEmpty(cs, o);
    if k == 0 {
      NothingLeft();
      EncodeNonEmpty(cs);
      assert cs[..m] == [];
    } else {
      var first := Encode(cs[0]);
      if k < |first| {
        assert rest == first[..k];
        CommandCut(cs[0], k);
        assert cs[..m] == [];
      } else {
        var tail := EncodeAll(cs[1..])[..k - |first|];
        assert rest == first + tail;
        CommandReads(cs[0], tail);
        assert file[pos + |first|..] == tail;
        LoadsWhole(file, pos + |first|, Ran(c, cs[0], pos), cs[1..], k - |first|, o);
        assert cs[..m][0] == cs[0] && cs[..m][1..] == cs[1..][..m - 1];
      }
    }
  }

  lemma NotEmpty(cs: seq<Command>, o: Options)
    requires Loadable(cs, o)
    ensures forall i :: 0 <= i < |cs| ==> cs[i] != []
  {
    hide Lower, Foreign;
  }

  lemma NothingLeft()
    ensures ReadCommand([]) == End
  {
  }

  lemma EncodeNonEmpty(cs: seq<Command>)
    ensures cs != [] ==> |Encode(cs[0])| > 0
  {
  }

  lemma NoPreamble(cs: seq<Command>, k: nat)
    requires 0 < k <= |EncodeAll(cs)|
    ensures var s := EncodeAll(cs)[..k]; s != [] && !(REDIS <= s)
  {
    assert EncodeAll(cs)[0] == STAR;
  }

  /** Every prefix of a file of commands loads as the whole commands it holds. A rest behind
      the last of them, or an unfinished transaction if there is no rest, is cut off; if that
      is not allowed or fails, the process exits. */
  lemma CutFileLoads(cs: seq<Command>, k: nat, o: Options)
    requires Loadable(cs, o) && 0 < k <= |EncodeAll(cs)|
    ensures (forall i :: 0 <= i < |cs| ==> cs[i] != [])
    ensures var m := Whole(cs, k);
            Load(EncodeAll(cs)[..k], o) == Outcome(RanAll(NEW_CLIENT, cs[..m], 0), |EncodeAll(cs[..m])|, k, o)
  {
    hide EncodeAll, LoadFrom, RanAll, Loadable;
    NoPreamble(cs, k);
    NotEmpty(cs, o);
    var file := EncodeAll(cs)[..k];
    assert file[0..] == file;
    LoadsWhole(file, 0, NEW_CLIENT, cs, k, o);
  }

  lemma WholeOfAll(cs: seq<Command>)
    ensures Whole(cs, |EncodeAll(cs)|) == |cs|
  {
    hide EncodeAll, Whole;
    WholeIsMost(cs, |EncodeAll(cs)|);
    var m := Whole(cs, |EncodeAll(cs)|);
    if m < |cs| { EncodeAllGrows(cs, m + 1); }
  }

  lemma WholeFileLoads(cs: seq<Command>, o: Options)
    requires Loadable(cs, o) && cs != []
    ensures (forall i :: 0 <= i < |cs| ==> cs[i] != [])
    ensures var size := |EncodeAll(cs)|; Load(EncodeAll(cs), o) == Outcome(RanAll(NEW_CLIENT, cs, 0), size, size, o)
  {
    hide EncodeAll, Load, Whole, Loadable, RanAll;
    var file := EncodeAll(cs);
    assert file[..|file|] == file && cs[..|cs|] == cs;
    EncodeNonEmpty(cs);
    EncodeAllStarts(cs);
    CutFileLoads(cs, |file|, o);
    WholeOfAll(cs);
  }

  /** Commands outside of transactions. */
  ghost predicate NoMulti(cs: seq<Command>) {
    forall i :: 0 <= i < |cs| ==> cs[i] != [] && Lower(cs[i][0]) != MULTI
  }

  lemma {:induction false} ActingBoth(a: seq<Command>, b: seq<Command>)
    ensures Acting(a + b) == Acting(a) + Acting(b)
  {
    hide IsBracket;
    if b == [] {
      assert a + b == a;
    } else {
      var n := |b| - 1;
      var last := if IsBracket(b[n]) then [] else [b[n]];
      ActingBoth(a, b[..n]);
      assert (a + b)[..|a + b| - 1] == a + b[..n];
      Assoc(Acting(a), Acting(b[..n]), last);
    }
  }

  lemma ActingOne(cmd: Command)
    ensures Acting([cmd]) == if IsBracket(cmd) then [] else [cmd]
  {
    hide IsBracket;
    assert [cmd][..0] == [];
  }

  lemma {:induction false} AllActing(cs: seq<Command>)
    requires forall i :: 0 <= i < |cs| ==> !IsBracket(cs[i])
    ensures Acting(cs) == cs
  {
    hide IsBracket;
    if cs != [] {
      AllActing(cs[..|cs| - 1]);
      assert cs == cs[..|cs| - 1] + [cs[|cs| - 1]];
    }
  }

  lemma {:induction false} PlainCommandsRun(c: Client, cs: seq<Command>, pos: nat)
    requires NoMulti(cs) && c.queue.None?
    ensures RanAll(c, cs, pos) == c.(done := c.done + Acting(cs))
    decreases |cs|
  {
    hide Lower, Encode, Acting;
    if cs == [] {
      ActingNone();
      assert c.done + [] == c.done;
    } else {
      PlainCommandsRun(Ran(c, cs[0], pos), cs[1..], pos + |Encode(cs[0])|);
      assert cs == [cs[0]] + cs[1..];
      ActingOne(cs[0]);
      ActingBoth([cs[0]], cs[1..]);
      Assoc(c.done, Acting([cs[0]]), Acting(cs[1..]));
      assert c.done + [] == c.done;
    }
  }

  lemma ActingNone()
    ensures Acting([]) == []
  {
  }

  /** The whole file loads back to the same commands; an EXEC among them does nothing. */
  lemma RoundTrip(cs: seq<Command>, o: Options)
    requires Loadable(cs, o) && NoMulti(cs) && cs != []
    ensures Load(EncodeAll(cs), o) == Loaded(Acting(cs), |EncodeAll(cs)|)
    ensures (forall i :: 0 <= i < |cs| ==> !IsBracket(cs[i])) ==> Load(EncodeAll(cs), o) == Loaded(cs, |EncodeAll(cs)|)
  {
    hide EncodeAll, Load, Loadable, RanAll, Acting, IsBracket;
    WholeFileLoads(cs, o);
    PlainCommandsRun(NEW_CLIENT, cs, 0);
    assert [] + Acting(cs) == Acting(cs);
    if forall i :: 0 <= i < |cs| ==> !IsBracket(cs[i]) { AllActing(cs); }
  }

  lemma EncodeAllStarts(cs: seq<Command>)
    requires cs != []
    ensures |EncodeAll(cs)| >= |Encode(cs[0])|
  {
    hide Encode;
  }

  lemma {:induction false} EncodeAllGrows(cs: seq<Command>, m: nat)
    requires m <= |cs|
    ensures |EncodeAll(cs[..m])| <= |EncodeAll(cs)|
  {
    hide Encode;
    if m > 0 {
      EncodeAllGrows(cs[1..], m - 1);
      assert cs[..m][1..] == cs[1..][..m - 1];
    }
  }

  /** Loading what the loader left behind changes nothing any more, unless it ends inside a
      transaction. */
  lemma TruncatedFileIsStable(cs: seq<Command>, k: nat, o: Options)
    requires Loadable(cs, o) && 0 < k <= |EncodeAll(cs)| && o.loadTruncated && o.truncates && Whole(cs, k) > 0
    requires (forall i :: 0 <= i < |cs| ==> cs[i] != []) && RanAll(NEW_CLIENT, cs[..Whole(cs, k)], 0).queue.None?
    ensures var r := Load(EncodeAll(cs)[..k], o);
            && r.Loaded? && r.size <= k && Load(EncodeAll(cs)[..k][..r.size], o) == r
  {
    hide EncodeAll, LoadFrom, Load, RanAll, Foreign, Lower;
    CutFileLoads(cs, k, o);
    WholeIsMost(cs, k);
    var m := Whole(cs, k);
    var size := |EncodeAll(cs[..m])|;
    EncodeAllPrefix(cs, m);
    assert EncodeAll(cs)[..k][..size] == EncodeAll(cs[..m]);
    WholeFileLoads(cs[..m], o);
  }

  lemma {:induction false} EncodeBoth(a: seq<Command>, b: seq<Command>)
    ensures EncodeAll(a + b) == EncodeAll(a) + EncodeAll(b)
  {
    hide Encode;
    if a == [] {
      assert a + b == b;
    } else {
      var first, rest := Encode(a[0]), a[1..];
      EncodeBoth(rest, b);
      calc {
        EncodeAll(a + b);
        { assert (a + b)[0] == a[0] && (a + b)[1..] == rest + b; }
        first + EncodeAll(rest + b);
        first + (EncodeAll(rest) + EncodeAll(b));
        { Assoc(first, EncodeAll(rest), EncodeAll(b)); }
        first + EncodeAll(rest) + EncodeAll(b);
        EncodeAll(a) + EncodeAll(b);
      }
    }
  }

  lemma {:induction false} EncodeAllPrefix(cs: seq<Command>, m: nat)
    requires m <= |cs|
    ensures EncodeAll(cs[..m]) <= EncodeAll(cs)
  {
    hide Encode;
    if m > 0 {
      EncodeAllPrefix(cs[1..], m - 1);
      assert cs[..m][1..] == cs[1..][..m - 1];
    }
  }

  // -------------------------------------------------------------------------
  // The loop
  // -------------------------------------------------------------------------

  lemma PrependTwice(a: seq<Arg>, b: seq<Arg>, r: Read<seq<Arg>>)
    ensures Prepend([], r) == r && Prepend(a, Prepend(b, r)) == Prepend(a + b, r)
  {
    if r.Got? { assert [] + r.value == r.value && a + (b + r.value) == a + b + r.value; }
  }

  lemma ReadsFrom(file: seq<byte>, pos: nat)
    requires pos < |file|
    ensures var l := Fgets(file[pos..]); pos + |l.text| <= |file| && l.rest == file[pos + |l.text|..]
  {
  }

  /** The inner loop of loadAppendOnlyFile: the arguments of one command. */
  method ReadArguments(file: seq<byte>, start: nat, argc: nat) returns (r: Read<seq<Arg>>, pos: nat)
    requires start <= |file|
    ensures r == ReadArgs(file[start..], argc)
    ensures r.Got? ==> pos <= |file| && r.rest == file[pos..]
  {
    hide StrtolUnsigned, Fgets;
    var argv := [];
    pos := start;
    PrependTwice([], [], ReadArgs(file[start..], argc));
    var j := 0;
    while j < argc
      invariant 0 <= j <= argc && pos <= |file|
      invariant ReadArgs(file[start..], argc) == Prepend(argv, ReadArgs(file[pos..], argc - j))
    {
      if pos == |file| { return ShortRead, pos; }
      var l := Fgets(file[pos..]);
      ReadsFrom(file, pos);
      if l.text[0] != DOLLAR { return Malformed, pos; }
      var len := StrtolUnsigned(l.text[1..]);
      var at := pos + |l.text|;
      if len > 0 && at + len > |file| { return ShortRead, pos; }
      var arg := file[at..at + len];
      if at + len + 2 > |file| { return ShortRead, pos; }
      assert l.rest[..len] == arg && l.rest[len + 2..] == file[at + len + 2..];
      assert ReadArg(file[pos..]) == Got(arg, file[at + len + 2..]);
      PrependTwice(argv, [arg], ReadArgs(file[at + len + 2..], argc - j - 1));
      argv := argv + [arg];
      pos := at + len + 2;
      j := j + 1;
    }
    assert argv + [] == argv;
    return Got(argv, file[pos..]), pos;
  }

  /** loadAppendOnlyFile */
  method LoadAppendOnlyFile(file: seq<byte>, o: Options) returns (r: Result)
    ensures r == Load(file, o)
  {
    hide Fgets, Atoi, ReadArgs, Lower, Ran, Foreign, Acting;
    if |file| == 0 { return Empty; }
    if |file| >= 5 && file[..5] == REDIS { return RdbPreamble; }
    var client := new FakeClient();
    var validUpTo: nat, validBeforeMulti: nat, pos: nat := 0, 0, 0;
    assert !(REDIS <= file);
    while pos < |file|
      invariant pos <= |file| && fresh(client)
      invariant o.loadTruncated ==> validUpTo == pos && validBeforeMulti == client.before
      invariant Load(file, o) == LoadFrom(file, pos, client.View(), o)
      decreases |file| - pos
    {
      var l := Fgets(file[pos..]);
      ReadsFrom(file, pos);
      if l.text[0] != STAR { return Exits(client.done); }
      if |l.text| == 1 || l.text[1] == 0 {
        if !l.eof { return Exits(client.done); }
        r := UnexpectedEof(client.done, validUpTo, o);
        return;
      }
      var argc := Atoi(l.text[1..]);
      if argc < 1 { return Exits(client.done); }
      var done := client.done;
      var args, next := ReadArguments(file, pos + |l.text|, argc);
      assert args == ReadCommand(file[pos..]);
      match args {
        case Got(argv, _) =>
          if Lower(argv[0]) !in o.known { return Exits(client.done); }
          if Foreign(argv[0]) { return Unmodelled; }
          if Lower(argv[0]) == MULTI { validBeforeMulti := validUpTo; }
          client.Execute(argv, pos);
          pos := next;
          if o.loadTruncated { validUpTo := pos; }
        case ShortRead =>
          r := UnexpectedEof(client.done, validUpTo, o);
          return;
        case _ => return Exits(done);
      }
    }
    if client.inMulti {
      validUpTo := validBeforeMulti;
      r := UnexpectedEof(client.done, validUpTo, o);
    } else {
      r := Loaded(client.done, |file|);
    }
  }

  method UnexpectedEof(done: seq<Command>, validUpTo: nat, o: Options) returns (r: Result)
    ensures r == CutOff(done, validUpTo, o)
  {
    if o.loadTruncated {
      if o.truncates { return Loaded(done, validUpTo); }
    }
    return Exits(done);
  }

  /** The client that the loader runs commands for. */
  class FakeClient {
    var done: seq<Command>
    var inMulti: bool
    var commands: seq<Command>
    ghost var before: nat

    ghost function View(): Client
      reads this
    {
      Client(done, if inMulti then Some(commands) else None, before)
    }

    constructor ()
      ensures View() == NEW_CLIENT
    {
      done, inMulti, commands, before := [], false, [], 0;
    }

    /** multiCommand, execCommand, queueMultiCommand, or the command itself. */
    method Execute(cmd: Command, ghost pos: nat)
      requires cmd != []
      modifies this
      ensures View() == Ran(old(View()), cmd, pos)
      ensures before == if Lower(cmd[0]) == MULTI then pos else old(before)
    {
      hide Acting, Lower;
      var name := Lower(cmd[0]);
      if name == MULTI { before := pos; }
      if inMulti && name != EXEC {
        commands := commands + [cmd];
      } else if name == EXEC {
        if !inMulti { return; }
        ExecuteQueue();
        inMulti, commands := false, [];
      } else if name == MULTI {
        inMulti, commands := true, [];
      } else {
        done := done + [cmd];
      }
    }

    /** The loop of execCommand. */
    method ExecuteQueue()
      requires inMulti
      modifies this`done
      ensures done == old(done) + Acting(commands)
    {
      ActingNone();
      assert done + [] == done;
      for j := 0 to |commands|
        invariant done == old(done) + Acting(commands[..j])
      {
        assert commands[..j + 1][..j] == commands[..j];
        if !IsBracket(commands[j]) { done := done + [commands[j]]; }
      }
      assert commands[..|commands|] == commands;
    }
  }
}
