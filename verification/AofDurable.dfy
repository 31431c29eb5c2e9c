/** The append-only file from end to end: whatever the disk did to the writes, loading the file
    executes a prefix of what was fed, with no transaction torn apart, and loading a rewritten
    file executes all of it. If the server had started with a file that ends in the beginning of
    a transaction, what was fed is read as its continuation. */
module AofDurable {
  import AofBuffer
  import AofRewrite
  import opened AofLoader
  import opened AofTransactions
  import opened AofResume

  // -------------------------------------------------------------------------
  // The write buffer
  // -------------------------------------------------------------------------

  /** Every feed appends whole commands in their encoding: `feeds[i]` in step `i`. */
  ghost predicate FeedsCommands(steps: seq<AofBuffer.Step>, feeds: seq<seq<Command>>) {
    && |feeds| == |steps|
    && forall i :: 0 <= i < |steps| && steps[i].Feed? ==> steps[i].bytes == EncodeAll(feeds[i])
  }

  /** The commands that a run has fed, until the process exited. */
  ghost function Commands(states: seq<AofBuffer.Log>, steps: seq<AofBuffer.Step>,
                          feeds: seq<seq<Command>>): seq<Command>
    requires |states| == |steps| + 1 && |feeds| == |steps|
  {
    if steps == [] then []
    else
      var n := |steps| - 1;
      Commands(states[..n + 1], steps[..n], feeds[..n])
      + if steps[n].Feed? && !states[n].exited then feeds[n] else []
  }

  lemma {:induction false} FedIsEncoded(states: seq<AofBuffer.Log>, steps: seq<AofBuffer.Step>,
                                        feeds: seq<seq<Command>>)
    requires |states| == |steps| + 1 && FeedsCommands(steps, feeds)
    ensures AofBuffer.AllFed(states, steps) == EncodeAll(Commands(states, steps, feeds))
  {
    if steps != [] {
      var n := |steps| - 1;
      FedIsEncoded(states[..n + 1], steps[..n], feeds[..n]);
      EncodeBoth(Commands(states[..n + 1], steps[..n], feeds[..n]),
                 if steps[n].Feed? && !states[n].exited then feeds[n] else []);
    }
  }

  /** Loading executes the first of the items that were logged. */
  ghost predicate LoadsAsPrefix(file: seq<byte>, items: seq<Item>, o: Options) {
    var r := Load(file, o);
    if file == [] then r == Empty
    else (r.Loaded? || r.Exits?) && r.commands == Effects(items[..Finished(items, Whole(FlatAll(items), |file|))])
  }

  lemma PrefixLoads(file: seq<byte>, items: seq<Item>, o: Options)
    requires Logged(items) && Loadable(FlatAll(items), o) && file <= EncodeAll(FlatAll(items))
    ensures LoadsAsPrefix(file, items, o)
  {
    hide EncodeAll, LoadFrom, Loadable, Logged, Whole, Finished, FlatAll, Effects;
    if file != [] {
      assert file == EncodeAll(FlatAll(items))[..|file|];
      TransactionsAreAtomic(items, |file|, o);
    }
  }

  /** In every state of every run that starts with whole commands and transactions, also after
      the process exited: loading the file executes the first of those that were in it at the
      start or were fed since, and all of them if it was flushed. */
  lemma FileLoads(states: seq<AofBuffer.Log>, policy: AofBuffer.Fsync, steps: seq<AofBuffer.Step>,
                  feeds: seq<seq<Command>>, first: seq<Command>, items: seq<Item>, o: Options)
    requires AofBuffer.IsRun(states, policy, steps) && FeedsCommands(steps, feeds)
    requires AofBuffer.Complete(states[0], EncodeAll(first)) && !states[0].exited
    requires first + Commands(states, steps, feeds) == FlatAll(items) && Logged(items) && Loadable(FlatAll(items), o)
    ensures var l := states[|steps|];
            && LoadsAsPrefix(l.file, items, o)
            && (!l.exited && l.buf == [] && l.file != [] ==> Load(l.file, o) == Loaded(Effects(items), |l.file|))
  {
    hide EncodeAll, Load, Loadable, Logged, Whole, Finished, FlatAll, Effects, AofBuffer.Next, Commands;
    var l := states[|steps|];
    AofBuffer.RunKeepsLog(states, policy, steps);
    FedIsEncoded(states, steps, feeds);
    EncodeBoth(first, Commands(states, steps, feeds));
    PrefixLoads(l.file, items, o);
    if !l.exited && l.buf == [] && l.file != [] {
      assert l.file + [] == l.file;
      assert items[..|items|] == items;
      WholeItemsLoad(items, |items|, o);
    }
  }

  /** Loading executes what the items, the beginning `t` of a transaction and the first of the
      items logged behind it give. */
  ghost predicate LoadsAsResumed(file: seq<byte>, items: seq<Item>, t: seq<Command>, more: seq<Item>, o: Options)
    requires |EncodeAll(FlatAll(items) + t)| <= |file|
  {
    var r := Load(file, o);
    if file == [] then r == Empty
    else
      && (r.Loaded? || r.Exits?)
      && r.commands == Resumed(items, t, Kept(more, |file| - |EncodeAll(FlatAll(items) + t)|))
  }

  lemma ResumedLoads(file: seq<byte>, items: seq<Item>, t: seq<Command>, more: seq<Item>, o: Options)
    requires Logged(items) && TornStart(t) && Logged(more) && Loadable(Log(items, t, more), o)
    requires EncodeAll(FlatAll(items) + t) <= file <= EncodeAll(Log(items, t, more))
    ensures LoadsAsResumed(file, items, t, more, o)
  {
    hide EncodeAll, LoadFrom, Loadable, Logged, Kept, FlatAll, Effects, Resumed, TornStart;
    if file != [] {
      assert file == EncodeAll(Log(items, t, more))[..|file|];
      EncodeBoth(FlatAll(items) + t, FlatAll(more));
      CutResumes(items, t, more, |file|, o);
    }
  }

  /** In every state of every run that starts with a file which ends in the beginning of a
      transaction: the same, with what that beginning does to what was fed. */
  lemma FileResumes(states: seq<AofBuffer.Log>, policy: AofBuffer.Fsync, steps: seq<AofBuffer.Step>,
                    feeds: seq<seq<Command>>, items: seq<Item>, t: seq<Command>, more: seq<Item>, o: Options)
    requires AofBuffer.IsRun(states, policy, steps) && FeedsCommands(steps, feeds)
    requires states[0].file == EncodeAll(FlatAll(items) + t) && states[0].buf == []
    requires AofBuffer.Complete(states[0], states[0].file) && !states[0].exited
    requires Logged(items) && TornStart(t) && Logged(more) && Loadable(Log(items, t, more), o)
    requires Commands(states, steps, feeds) == FlatAll(more)
    ensures var l := states[|steps|];
            && |EncodeAll(FlatAll(items) + t)| <= |l.file| && LoadsAsResumed(l.file, items, t, more, o)
            && (!l.exited && l.buf == [] ==> l.file == EncodeAll(Log(items, t, more)))
  {
    hide EncodeAll, Load, Loadable, Logged, FlatAll, Effects, AofBuffer.Next, Commands, LoadsAsResumed, TornStart;
    var l := states[|steps|];
    var first := FlatAll(items) + t;
    assert EncodeAll(first) + [] == EncodeAll(first);
    AofBuffer.RunKeepsLog(states, policy, steps);
    AofBuffer.FileGrows(states, policy, steps);
    FedIsEncoded(states, steps, feeds);
    EncodeBoth(first, FlatAll(more));
    if !l.exited && l.buf == [] { assert l.file + [] == l.file; }
    ResumedLoads(l.file, items, t, more, o);
  }

  /** A file that was cut off is loaded, and the server goes on and logs `more`: what every later
      file executes, whatever the disk does. */
  lemma FileResumesAfterLoad(states: seq<AofBuffer.Log>, policy: AofBuffer.Fsync, steps: seq<AofBuffer.Step>,
                             feeds: seq<seq<Command>>, items: seq<Item>, k: nat, more: seq<Item>, o: Options)
    requires AofBuffer.IsRun(states, policy, steps) && FeedsCommands(steps, feeds)
    requires Logged(items) && Loadable(FlatAll(items), o) && 0 < k <= Size(items) && o.loadTruncated && o.truncates
    requires var r := Load(EncodeAll(FlatAll(items))[..k], o);
             r.Loaded? && r.size <= k && states[0].file == EncodeAll(FlatAll(items))[..k][..r.size]
    requires states[0].buf == [] && AofBuffer.Complete(states[0], states[0].file) && !states[0].exited
    requires Logged(more) && Loadable(FlatAll(more), o) && Commands(states, steps, feeds) == FlatAll(more)
    ensures var done, left, l := Kept(items, k), Left(items, k), states[|steps|];
            && |EncodeAll(FlatAll(done) + left)| <= |l.file| && LoadsAsResumed(l.file, done, left, more, o)
            && (!l.exited && l.buf == [] ==> l.file == EncodeAll(Log(done, left, more)))
            && (left == [] <==> !CutInTransaction(items, k))
  {
    hide EncodeAll, Load, Loadable, Logged, FlatAll, Effects, AofBuffer.Next, Commands, LoadsAsResumed, TornStart,
      Kept, Left, CutInTransaction;
    var done, left := Kept(items, k), Left(items, k);
    LeftBehind(items, k, o);
    LoggedKept(items, k);
    LoadableParts(FlatAll(items), FlatAll(done) + left, FlatAll(more), o);
    var e, n := EncodeAll(FlatAll(items)), |EncodeAll(FlatAll(done) + left)|;
    assert e[..k][..n] == e[..n];
    FileResumes(states, policy, steps, feeds, done, left, more, o);
  }

  // -------------------------------------------------------------------------
  // The rewrite
  // -------------------------------------------------------------------------

  ghost predicate RewriteFeeds(steps: seq<AofRewrite.Step>, feeds: seq<seq<Command>>) {
    && |feeds| == |steps|
    && forall i :: 0 <= i < |steps| && steps[i].Feed? ==> steps[i].bytes == EncodeAll(feeds[i])
  }

  ghost function SinceFork(steps: seq<AofRewrite.Step>, feeds: seq<seq<Command>>): seq<Command>
    requires |feeds| == |steps|
  {
    if steps == [] then []
    else
      var n := |steps| - 1;
      SinceFork(steps[..n], feeds[..n]) + if steps[n].Feed? then feeds[n] else []
  }

  lemma {:induction false} RewriteFedIsEncoded(steps: seq<AofRewrite.Step>, feeds: seq<seq<Command>>)
    requires RewriteFeeds(steps, feeds)
    ensures AofRewrite.Fed(steps) == EncodeAll(SinceFork(steps, feeds))
  {
    if steps != [] {
      var n := |steps| - 1;
      RewriteFedIsEncoded(steps[..n], feeds[..n]);
      EncodeBoth(SinceFork(steps[..n], feeds[..n]), if steps[n].Feed? then feeds[n] else []);
    }
  }

  /** A rewrite that succeeds, under any interleaving, leaves a file whose loading executes the
      commands of the snapshot and all that were fed since the fork. */
  lemma RewrittenLoads(states: seq<AofRewrite.State>, steps: seq<AofRewrite.Step>, feeds: seq<seq<Command>>,
                       snapshot: seq<Command>, items: seq<Item>, o: Options)
    requires AofRewrite.IsRun(states, steps, EncodeAll(snapshot)) && RewriteFeeds(steps, feeds)
    requires states[|steps|].child.Installed?
    requires snapshot + SinceFork(steps, feeds) == FlatAll(items) && Logged(items) && Loadable(FlatAll(items), o)
    ensures var file := states[|steps|].child.file;
            Load(file, o) == if file == [] then Empty else Loaded(Effects(items), |file|)
  {
    hide EncodeAll, Loadable, Logged, FlatAll, Effects, LoadFrom, SinceFork, AofRewrite.Next, AofRewrite.Fed;
    AofRewrite.SuccessfulRewrite(states, steps, EncodeAll(snapshot));
    RewriteFedIsEncoded(steps, feeds);
    EncodeBoth(snapshot, SinceFork(steps, feeds));
    if states[|steps|].child.file != [] {
      assert items[..|items|] == items;
      WholeItemsLoad(items, |items|, o);
    }
  }
}
