/** What the cache returns and what its files hold, in terms of the calls alone. */
module OfflineCacheLaws {
  import opened Wrappers
  import opened OfflineCache

  /** The path that is open after the calls. */
  function OpenPath(ops: seq<Op>): Option<string> {
    if ops == [] then None
    else
      match ops[|ops| - 1]
      case Open(path, works) => if works then Some(path) else None
      case _ => OpenPath(ops[..|ops| - 1])
  }

  /** The last state saved for the id while the path was open, or else its row on the disk
      the cache was started on. */
  function LastSaved(disk: Files, ops: seq<Op>, path: string, id: Id): Option<State> {
    if ops == [] then RowAt(disk, path, id)
    else
      var before := ops[..|ops| - 1];
      match ops[|ops| - 1]
      case Save(s) =>
        if OpenPath(before) == Some(path) && s.deviceId == id.deviceId && s.sensor == id.sensor then Some(s)
        else LastSaved(disk, before, path, id)
      case _ => LastSaved(disk, before, path, id)
  }

  predicate WasOpened(ops: seq<Op>, path: string) { Open(path, true) in ops }

  lemma {:induction false} PlainShows(disk: Files, ops: seq<Op>)
    ensures var p := PlainRun(Plain(disk, "", false), ops).0;
            && (p.isOpen <==> OpenPath(ops).Some?)
            && (p.isOpen ==> p.path == OpenPath(ops).value && p.path in p.files)
            && forall path, id :: RowAt(p.files, path, id) == LastSaved(disk, ops, path, id)
  {
    if ops != [] {
      PlainShows(disk, ops[..|ops| - 1]);
    }
  }

  lemma {:induction false} PlainFiles(disk: Files, ops: seq<Op>, path: string)
    ensures path in PlainRun(Plain(disk, "", false), ops).0.files <==> path in disk || WasOpened(ops, path)
  {
    if ops != [] {
      var last := |ops| - 1;
      PlainFiles(disk, ops[..last], path);
      PlainShows(disk, ops[..last]);
      assert ops == ops[..last] + [ops[last]];
    }
  }

  /** After any run over separated device ids: the cache is open on the path opened last, if
      that worked, and, once what is pending is written, the files on disk are those there
      were and those opened, and hold for every id the last state saved while the file was
      open, or else the row there was. */
  lemma FilesHoldTheLastSaves(disk: Files, ops: seq<Op>, devices: set<string>)
    requires AllOver(ops, devices) && Separated(devices)
    ensures var c := CacheRun(Fresh(disk), ops).0; var w := Written(c);
            && (c.isOpen <==> OpenPath(ops).Some?) && (c.isOpen ==> c.path == OpenPath(ops).value)
            && (forall path :: path in w.files <==> path in disk || WasOpened(ops, path))
            && (forall path, id :: RowAt(w.files, path, id) == LastSaved(disk, ops, path, id))
  {
    RunRefines(Fresh(disk), ops, devices);
    PlainShows(disk, ops);
    forall path
      ensures path in PlainRun(Plain(disk, "", false), ops).0.files <==> path in disk || WasOpened(ops, path)
    {
      PlainFiles(disk, ops, path);
    }
    hide CacheRun, PlainRun, Overlay, LastSaved, OpenPath, Separated, WellKept, RowAt;
    FreshView(disk);
  }

  lemma FreshView(disk: Files)
    ensures View(Fresh(disk)) == Plain(disk, "", false) && WellKept(Fresh(disk))
  {
  }

  /** The run ends with a call after which nothing is pending. */
  predicate EndsWritten(ops: seq<Op>) { ops != [] && !ops[|ops| - 1].Save? }

  /** After a flush, the timer, a load or an open the files need nothing more written. */
  lemma WrittenOnceAndForAll(disk: Files, ops: seq<Op>, devices: set<string>)
    requires AllOver(ops, devices) && Separated(devices) && EndsWritten(ops)
    ensures var c := CacheRun(Fresh(disk), ops).0;
            && c.pending == map[]
            && forall path, id :: RowAt(c.files, path, id) == LastSaved(disk, ops, path, id)
  {
    FilesHoldTheLastSaves(disk, ops, devices);
    RunRefines(Fresh(disk), ops[..|ops| - 1], devices);
    hide Overlay, LastSaved, PlainRun, Separated, PendingOver, PlainStep, RowAt;
    assert CacheRun(Fresh(disk), ops).0.pending == map[];
  }

  /** A load after any run over separated device ids returns, for each id, the last state
      saved while the open file was open, or else its row on the initial disk; and nothing
      if no file is open. */
  lemma LoadReturnsTheLastSaves(disk: Files, ops: seq<Op>, devices: set<string>)
    requires AllOver(ops, devices) && Separated(devices)
    ensures var (c, outs) := CacheRun(Fresh(disk), ops + [Load]);
            && |outs| == |ops| + 1 && outs[|ops|].Some?
            && forall id :: (if id in outs[|ops|].value then Some(outs[|ops|].value[id]) else None)
                            == match OpenPath(ops)
                               case Some(path) => LastSaved(disk, ops, path, id)
                               case None => None
  {
    var all := ops + [Load];
    assert all[..|ops|] == ops;
    FilesHoldTheLastSaves(disk, ops, devices);
    OneOutEach(Fresh(disk), ops);
    hide Overlay, LastSaved, PlainRun, Separated, PendingOver, PlainStep;
    var c := CacheRun(Fresh(disk), ops).0;
    assert CacheRun(Fresh(disk), all).1 == CacheRun(Fresh(disk), ops).1 + [CacheStep(c, Load).1];
  }

  lemma {:induction false} OneOutEach(c: Cache, ops: seq<Op>)
    ensures |CacheRun(c, ops).1| == |ops|
  {
    if ops != [] { OneOutEach(c, ops[..|ops| - 1]); }
  }
}
