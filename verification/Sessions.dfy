/** Whole histories of sessions: starts, orderly stops and crashes, with marker writes that may be torn. */
module Sessions {
  import opened CacheTypes
  import opened Bytes
  import opened SessionMarkers

  /**
  The marker file between events; whether a session is open and under which generation; whether a
  session that was opened has not been fully closed since; whether the last marker write was torn.
  */
  datatype World = World(file: seq<byte>, open: bool, generation: nat, owed: bool, torn: bool)

  /** Each marker write reaches the disk up to byte `cut`; a cut below 29 means the machine stopped there. */
  datatype Event = Startup(now: nat, cut: nat) | CleanStop(now: nat, cut: nat) | Crash

  predicate Possible(w: World, e: Event) {
    match e
    case Startup(now, cut) => !w.open && now < U64 && cut <= RECORD_SIZE
    case CleanStop(now, cut) => w.open && now < U64 && cut <= RECORD_SIZE
    case Crash => true
  }

  function After(w: World, e: Event): World
    requires Possible(w, e)
  {
    match e
    case Startup(now, cut) =>
      if ReadState(w.file).Err? then w
      else
        var m := Started(w.file, 0, now);
        var file := Rewritten(w.file, m, cut);
        if cut == RECORD_SIZE then World(file, true, m.generation, true, false)
        else World(file, false, 0, w.owed, true)
    case CleanStop(now, cut) =>
      var m := Marker(w.generation, now, 1);
      var file := Rewritten(w.file, m, cut);
      World(file, false, 0, file != MarkerBytes(m), cut < RECORD_SIZE)
    case Crash => w.(open := false, generation := 0)
  }

  predicate TornWrite(e: Event) {
    !e.Crash? && e.cut < RECORD_SIZE
  }

  /** A history from an empty marker file. */
  ghost predicate IsHistory(ws: seq<World>, es: seq<Event>) {
    && |ws| == |es| + 1 && ws[0] == World([], false, 0, false, false)
    && forall i | 0 <= i < |es| :: Happens(ws, es, i)
  }

  ghost predicate Happens(ws: seq<World>, es: seq<Event>, i: nat)
    requires i < |es| < |ws|
  {
    Possible(ws[i], es[i]) && ws[i + 1] == After(ws[i], es[i])
  }

  /** No two successive marker writes are torn. */
  ghost predicate Spaced(ws: seq<World>, es: seq<Event>) {
    |ws| == |es| + 1 && forall i | 0 <= i < |es| :: !(ws[i].torn && TornWrite(es[i]))
  }

  // ----- Every startup can read the marker -----

  lemma StepHeaded(w: World, e: Event)
    requires Possible(w, e) && Headed(w.file)
    ensures Headed(After(w, e).file)
  {
    hide Rewritten, ReadState, Headed;
    match e
    case Startup(now, cut) => RewrittenHeaded(w.file, Started(w.file, 0, now), cut);
    case CleanStop(now, cut) => RewrittenHeaded(w.file, Marker(w.generation, now, 1), cut);
    case Crash =>
  }

  /** In every history, however often marker writes are torn, the marker is readable. */
  lemma {:induction false} MarkerAlwaysReadable(ws: seq<World>, es: seq<Event>, i: nat)
    requires IsHistory(ws, es) && i <= |es|
    ensures Headed(ws[i].file) && ReadState(ws[i].file).Ok?
  {
    hide After, ReadState;
    if i > 0 {
      MarkerAlwaysReadable(ws, es, i - 1);
      assert Happens(ws, es, i - 1);
      StepHeaded(ws[i - 1], es[i - 1]);
    }
    HeadedReadable(ws[i].file);
  }

  // ----- Invariant -----

  ghost predicate OpenFile(file: seq<byte>) {
    exists m: Marker :: m.closedCleanly == 0 && Fits(m) && file == MarkerBytes(m)
  }

  ghost predicate ClosedFile(file: seq<byte>) {
    exists m: Marker :: m.closedCleanly == 1 && Fits(m) && file == MarkerBytes(m)
  }

  ghost predicate Inv(w: World) {
    && w.generation < U64 && |w.file| <= RECORD_SIZE
    && (w.open ==> w.owed && !w.torn)
    && (!w.torn ==> OpenFile(w.file) || (!w.owed && !w.open && (w.file == [] || ClosedFile(w.file))))
    && (w.torn && w.owed ==> !ReadsClean(w.file))
  }

  lemma WholeWrite(file: seq<byte>, m: Marker)
    requires |file| <= RECORD_SIZE
    ensures Rewritten(file, m, RECORD_SIZE) == MarkerBytes(m)
  {
    hide MarkerBytes;
    assert MarkerBytes(m)[..RECORD_SIZE] == MarkerBytes(m);
  }

  lemma RewrittenSize(file: seq<byte>, m: Marker, j: nat)
    requires |file| <= RECORD_SIZE && j <= RECORD_SIZE
    ensures |Rewritten(file, m, j)| <= RECORD_SIZE
  {
  }

  lemma StartupInv(w: World, now: nat, cut: nat)
    requires Inv(w) && Possible(w, Startup(now, cut)) && !(w.torn && cut < RECORD_SIZE)
    ensures Inv(After(w, Startup(now, cut)))
  {
    hide ReadsClean, ReadState, MarkerBytes, Rewritten, KnownGeneration;
    var m := Started(w.file, 0, now);
    RewrittenSize(w.file, m, cut);
    if cut == RECORD_SIZE {
      WholeWrite(w.file, m);
    } else if w.owed {
      var before: Marker :| before.closedCleanly == 0 && Fits(before) && w.file == MarkerBytes(before);
      OpenStaysOpen(before, m, cut);
    }
  }

  lemma StopInv(w: World, now: nat, cut: nat)
    requires Inv(w) && Possible(w, CleanStop(now, cut))
    ensures Inv(After(w, CleanStop(now, cut)))
  {
    hide ReadsClean, ReadState, MarkerBytes, Rewritten;
    var m := Marker(w.generation, now, 1);
    RewrittenSize(w.file, m, cut);
    var before: Marker :| before.closedCleanly == 0 && Fits(before) && w.file == MarkerBytes(before);
    NoFalseClean(before, m, cut);
    if cut == RECORD_SIZE {
      WholeWrite(w.file, m);
    }
  }

  lemma CrashInv(w: World)
    requires Inv(w)
    ensures Inv(After(w, Crash))
  {
  }

  lemma FirstInv()
    ensures Inv(World([], false, 0, false, false))
  {
  }

  lemma {:induction false} HistoryInv(ws: seq<World>, es: seq<Event>, i: nat)
    requires IsHistory(ws, es) && Spaced(ws, es) && i <= |es|
    ensures Inv(ws[i])
  {
    hide After, Inv, ReadsClean;
    if i == 0 {
      FirstInv();
    } else {
      HistoryInv(ws, es, i - 1);
      assert Happens(ws, es, i - 1);
      match es[i - 1]
      case Startup(now, cut) => StartupInv(ws[i - 1], now, cut);
      case CleanStop(now, cut) => StopInv(ws[i - 1], now, cut);
      case Crash => CrashInv(ws[i - 1]);
    }
  }

  /**
  Whenever a session that was opened has not been fully closed, the next startup reads the marker,
  and reads it as unclean: it runs replay.
  */
  lemma UnclosedSessionIsNoticed(ws: seq<World>, es: seq<Event>, i: nat)
    requires IsHistory(ws, es) && Spaced(ws, es) && i < |es| && es[i].Startup? && ws[i].owed
    ensures ReadState(ws[i].file).Ok? && !ReadState(ws[i].file).value.closedCleanly
  {
    hide ReadState, MarkerBytes;
    HistoryInv(ws, es, i);
    MarkerAlwaysReadable(ws, es, i);
    if !ws[i].torn {
      var m: Marker :| m.closedCleanly == 0 && Fits(m) && ws[i].file == MarkerBytes(m);
      MarkerReads(m);
    }
  }

  lemma MarkerReads(m: Marker)
    requires Fits(m)
    ensures ReadsClean(MarkerBytes(m)) <==> m.closedCleanly != 0
  {
    MarkerRoundTrip(m);
  }
}
