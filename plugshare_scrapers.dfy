/**
 * Model of the accumulate-and-flush loops of evlens/data/plugshare.py:
 * MainMapScraper.run and LocationIDScraper.run.
 *
 * The browser is replaced by what it yields: for MainMapScraper, the pair
 * of frames scrape_location returns for each location; for
 * LocationIDScraper, what grab_location_ids returns for each search
 * criterion. BigQuery is an append-only log of (table, rows) inserts
 * held by the scraper object.
 */
module PlugshareScrapers {
  import opened Wrappers
  import opened Text
  import opened PlugshareText

  /** One insert into a BigQuery table. */
  datatype Save<R> = Save(table: string, rows: seq<R>)

  /** save_to_bigquery: an empty frame is logged and not inserted. */
  function SaveLog<R>(table: string, rows: seq<R>): (log: seq<Save<R>>)
    ensures |log| <= 1 && (|log| == 1 <==> |rows| > 0)
    ensures |log| == 1 ==> log[0] == Save(table, rows)
  {
    if |rows| == 0 then [] else [Save(table, rows)]
  }

  /** pd.concat(frames, ignore_index=True) on a non-empty list: the rows, frame after frame. */
  function Concat<R>(frames: seq<seq<R>>): seq<R> {
    if |frames| == 0 then [] else Concat(frames[..|frames| - 1]) + frames[|frames| - 1]
  }

  lemma {:induction false} ConcatAppend<R>(frames: seq<seq<R>>, more: seq<seq<R>>)
    ensures Concat(frames + more) == Concat(frames) + Concat(more)
    decreases |more|
  {
    if |more| == 0 {
      assert frames + more == frames;
    } else {
      var n := |more| - 1;
      assert (frames + more)[..|frames + more| - 1] == frames + more[..n];
      ConcatAppend(frames, more[..n]);
    }
  }

  /** Every row inserted into `table`, in insert order. */
  function TableRows<R>(log: seq<Save<R>>, table: string): seq<R> {
    if |log| == 0 then []
    else TableRows(log[..|log| - 1], table) + (if log[|log| - 1].table == table then log[|log| - 1].rows else [])
  }

  lemma {:induction false} TableRowsAppend<R>(log: seq<Save<R>>, more: seq<Save<R>>, table: string)
    ensures TableRows(log + more, table) == TableRows(log, table) + TableRows(more, table)
    decreases |more|
  {
    if |more| == 0 {
      assert log + more == log;
    } else {
      var n := |more| - 1;
      assert (log + more)[..|log + more| - 1] == log + more[..n];
      TableRowsAppend(log, more[..n], table);
    }
  }

  /** pd.concat([]) raises ValueError("No objects to concatenate"). */
  datatype RunError = NoObjectsToConcatenate

  // ----- MainMapScraper.run -----

  const StationsTable := "stations"
  const CheckinsTable := "checkins"

  /** The loop state of MainMapScraper.run: the two buffers, what was inserted, and whether a concat raised. */
  datatype MainMapState<R> = MainMapState(stations: seq<seq<R>>, checkins: seq<seq<R>>, saves: seq<Save<R>>, crashed: bool)

  /** One iteration: buffer the non-empty frames, then flush both buffers once the station buffer reaches saveEvery. */
  function MainMapStep<R>(st: MainMapState<R>, scraped: (seq<R>, seq<R>), saveEvery: int): MainMapState<R>
    requires !st.crashed
  {
    var stations := if |scraped.0| > 0 then st.stations + [scraped.0] else st.stations;
    var checkins := if |scraped.1| > 0 then st.checkins + [scraped.1] else st.checkins;
    if |stations| >= saveEvery then
      if |stations| == 0 || |checkins| == 0 then MainMapState(stations, checkins, st.saves, true)
      else MainMapState([], [], st.saves + SaveLog(StationsTable, Concat(stations)) + SaveLog(CheckinsTable, Concat(checkins)), false)
    else MainMapState(stations, checkins, st.saves, false)
  }

  /** The state after the loop has run over `scraped`, or stopped at the first raise. */
  function MainMapLoop<R>(scraped: seq<(seq<R>, seq<R>)>, saveEvery: int): MainMapState<R> {
    if |scraped| == 0 then MainMapState([], [], [], false)
    else
      var prev := MainMapLoop(scraped[..|scraped| - 1], saveEvery);
      if prev.crashed then prev else MainMapStep(prev, scraped[|scraped| - 1], saveEvery)
  }

  /** After the loop: concatenate and insert both buffers, or raise if either is empty. */
  function MainMapFinish<R>(st: MainMapState<R>): (seq<Save<R>>, Result<(seq<R>, seq<R>), RunError>) {
    if st.crashed || |st.stations| == 0 || |st.checkins| == 0 then (st.saves, Failure(NoObjectsToConcatenate))
    else
      var stations := Concat(st.stations);
      var checkins := Concat(st.checkins);
      (st.saves + SaveLog(StationsTable, stations) + SaveLog(CheckinsTable, checkins), Success((stations, checkins)))
  }

  /** What MainMapScraper.run inserts, and what it returns or raises. */
  function MainMapRun<R>(scraped: seq<(seq<R>, seq<R>)>, saveEvery: int): (seq<Save<R>>, Result<(seq<R>, seq<R>), RunError>) {
    MainMapFinish(MainMapLoop(scraped, saveEvery))
  }

  /** Once the loop has raised, later locations change nothing. */
  lemma {:induction false} MainMapCrashStays<R>(scraped: seq<(seq<R>, seq<R>)>, k: nat, saveEvery: int)
    requires k <= |scraped| && MainMapLoop(scraped[..k], saveEvery).crashed
    ensures MainMapLoop(scraped, saveEvery) == MainMapLoop(scraped[..k], saveEvery)
    decreases |scraped| - k
  {
    if k < |scraped| {
      var n := |scraped| - 1;
      assert scraped[..n][..k] == scraped[..k];
      MainMapCrashStays(scraped[..n], k, saveEvery);
      assert scraped[..|scraped|] == scraped;
    } else {
      assert scraped[..k] == scraped;
    }
  }

  /** One more location: the loop state is one step of the state before it. */
  lemma MainMapLoopSnoc<R>(scraped: seq<(seq<R>, seq<R>)>, i: nat, saveEvery: int)
    requires i < |scraped| && !MainMapLoop(scraped[..i], saveEvery).crashed
    ensures MainMapLoop(scraped[..i + 1], saveEvery) == MainMapStep(MainMapLoop(scraped[..i], saveEvery), scraped[i], saveEvery)
  {
    assert scraped[..i + 1][..i] == scraped[..i];
  }

  /** Once the loop has raised at location k, run inserts nothing more and raises. */
  lemma MainMapRaised<R>(scraped: seq<(seq<R>, seq<R>)>, k: nat, saveEvery: int)
    requires k <= |scraped| && MainMapLoop(scraped[..k], saveEvery).crashed
    ensures MainMapRun(scraped, saveEvery) == (MainMapLoop(scraped[..k], saveEvery).saves, Failure(NoObjectsToConcatenate))
  {
    MainMapCrashStays(scraped, k, saveEvery);
  }

  lemma MainMapFinished<R>(scraped: seq<(seq<R>, seq<R>)>, saveEvery: int)
    ensures MainMapLoop(scraped[..|scraped|], saveEvery) == MainMapLoop(scraped, saveEvery)
  {
    assert scraped[..|scraped|] == scraped;
  }

  /** The non-empty frames among the first (`first`) or second components, in location order. */
  function NonEmpty<R>(scraped: seq<(seq<R>, seq<R>)>, first: bool): (frames: seq<seq<R>>)
    ensures forall i :: 0 <= i < |frames| ==> |frames[i]| > 0
  {
    if |scraped| == 0 then []
    else
      var f := if first then scraped[|scraped| - 1].0 else scraped[|scraped| - 1].1;
      NonEmpty(scraped[..|scraped| - 1], first) + (if |f| > 0 then [f] else [])
  }

  /** With save_every >= 1, the station buffer is shorter than save_every after every iteration. */
  lemma {:induction false} MainMapBufferBelowThreshold<R>(scraped: seq<(seq<R>, seq<R>)>, saveEvery: int)
    requires saveEvery >= 1 && !MainMapLoop(scraped, saveEvery).crashed
    ensures |MainMapLoop(scraped, saveEvery).stations| < saveEvery
  {
    if |scraped| > 0 {
      MainMapBufferBelowThreshold(scraped[..|scraped| - 1], saveEvery);
    }
  }

  lemma ConcatSnoc<R>(frames: seq<seq<R>>, f: seq<R>)
    ensures Concat(frames + [f]) == Concat(frames) + f
  {
    assert (frames + [f])[..|frames|] == frames;
  }

  /** The rows a frame adds to a buffer: none when it is empty. */
  function Added<R>(f: seq<R>): seq<R> {
    if |f| > 0 then f else []
  }

  lemma NonEmptySnoc<R>(scraped: seq<(seq<R>, seq<R>)>, s: seq<R>, c: seq<R>)
    ensures Concat(NonEmpty(scraped + [(s, c)], true)) == Concat(NonEmpty(scraped, true)) + Added(s)
    ensures Concat(NonEmpty(scraped + [(s, c)], false)) == Concat(NonEmpty(scraped, false)) + Added(c)
  {
    assert (scraped + [(s, c)])[..|scraped|] == scraped;
    if |s| > 0 { ConcatSnoc(NonEmpty(scraped, true), s); }
    else { assert NonEmpty(scraped, true) + [] == NonEmpty(scraped, true); }
    if |c| > 0 { ConcatSnoc(NonEmpty(scraped, false), c); }
    else { assert NonEmpty(scraped, false) + [] == NonEmpty(scraped, false); }
  }

  /** Rows inserted into `table` so far, followed by the rows of `buffer`. */
  function Accounted<R>(st: MainMapState<R>, stationRows: bool): seq<R> {
    if stationRows then TableRows(st.saves, StationsTable) + Concat(st.stations)
    else TableRows(st.saves, CheckinsTable) + Concat(st.checkins)
  }

  lemma AppendAssoc<R>(t: seq<R>, b: seq<R>, a: seq<R>)
    ensures t + (b + a) + [] == t + (b + a) == (t + b) + a
  {
  }

  /** Appending a checkpoint's inserts to a log that already holds earlier ones. */
  lemma LogAssoc<R>(base: seq<Save<R>>, saves: seq<Save<R>>, a: seq<Save<R>>, b: seq<Save<R>>)
    ensures base + saves + a + b == base + (saves + a + b)
  {
  }

  lemma LogAppend<R>(base: seq<Save<R>>, saves: seq<Save<R>>, more: seq<Save<R>>)
    ensures base + saves + more == base + (saves + more)
  {
  }

  /** A step's inserts do not depend on what was inserted before it. */
  lemma MainMapStepSaves<R>(st: MainMapState<R>, location: (seq<R>, seq<R>), saveEvery: int)
    requires !st.crashed
    ensures var alone := MainMapStep(MainMapState(st.stations, st.checkins, [], false), location, saveEvery);
      MainMapStep(st, location, saveEvery) == alone.(saves := st.saves + alone.saves)
  {
    var stations := if |location.0| > 0 then st.stations + [location.0] else st.stations;
    var checkins := if |location.1| > 0 then st.checkins + [location.1] else st.checkins;
    if |stations| >= saveEvery && |stations| > 0 && |checkins| > 0 {
      var a, b := SaveLog(StationsTable, Concat(stations)), SaveLog(CheckinsTable, Concat(checkins));
      LogAppend([], st.saves, a + b);
      LogAssoc([], st.saves, a, b);
      assert [] + a + b == a + b;
    } else {
      assert st.saves + [] == st.saves;
    }
  }

  /** A checkpoint moves both buffers' rows, in order, to the end of their tables. */
  lemma FlushAccounted<R>(saves: seq<Save<R>>, stations: seq<seq<R>>, checkins: seq<seq<R>>)
    ensures var log := saves + SaveLog(StationsTable, Concat(stations)) + SaveLog(CheckinsTable, Concat(checkins));
      TableRows(log, StationsTable) == TableRows(saves, StationsTable) + Concat(stations) &&
      TableRows(log, CheckinsTable) == TableRows(saves, CheckinsTable) + Concat(checkins)
  {
    var flush := SaveLog(StationsTable, Concat(stations)) + SaveLog(CheckinsTable, Concat(checkins));
    assert saves + SaveLog(StationsTable, Concat(stations)) + SaveLog(CheckinsTable, Concat(checkins)) == saves + flush;
    TableRowsAppend(saves, flush, StationsTable);
    TableRowsAppend(saves, flush, CheckinsTable);
    FlushRows(Concat(stations), Concat(checkins));
  }

  /** One iteration moves rows between buffer and table but adds exactly the new frames' rows. */
  lemma MainMapStepRows<R>(prev: MainMapState<R>, s: seq<R>, c: seq<R>, saveEvery: int, stationRows: bool)
    requires !prev.crashed && !MainMapStep(prev, (s, c), saveEvery).crashed
    ensures Accounted(MainMapStep(prev, (s, c), saveEvery), stationRows)
         == Accounted(prev, stationRows) + Added(if stationRows then s else c)
  {
    var stations := if |s| > 0 then prev.stations + [s] else prev.stations;
    var checkins := if |c| > 0 then prev.checkins + [c] else prev.checkins;
    assert Concat(stations) == Concat(prev.stations) + Added(s) by {
      if |s| > 0 { ConcatSnoc(prev.stations, s); } else { assert Concat(prev.stations) + [] == Concat(prev.stations); }
    }
    assert Concat(checkins) == Concat(prev.checkins) + Added(c) by {
      if |c| > 0 { ConcatSnoc(prev.checkins, c); } else { assert Concat(prev.checkins) + [] == Concat(prev.checkins); }
    }
    var st := MainMapStep(prev, (s, c), saveEvery);
    var table := if stationRows then StationsTable else CheckinsTable;
    var buffer := if stationRows then stations else checkins;
    var t := TableRows(prev.saves, table);
    var b := Concat(if stationRows then prev.stations else prev.checkins);
    var a := Added(if stationRows then s else c);
    assert Accounted(prev, stationRows) == t + b;
    assert Concat(buffer) == b + a;
    if |stations| >= saveEvery {
      var log := prev.saves + SaveLog(StationsTable, Concat(stations)) + SaveLog(CheckinsTable, Concat(checkins));
      assert st == MainMapState([], [], log, false);
      FlushAccounted(prev.saves, stations, checkins);
      assert TableRows(log, table) == t + (b + a);
      assert Accounted(st, stationRows) == TableRows(log, table) + Concat<R>([]);
      assert Concat<R>([]) == [];
      AppendAssoc(t, b, a);
    } else {
      assert st == MainMapState(stations, checkins, prev.saves, false);
      assert Accounted(st, stationRows) == t + (b + a);
      AppendAssoc(t, b, a);
    }
  }

  /**
   * No row is lost or reordered: the rows inserted into a table so far,
   * followed by the rows still buffered for it, are all the non-empty
   * frames scraped, in location order.
   */
  lemma {:induction false} MainMapConservation<R>(scraped: seq<(seq<R>, seq<R>)>, saveEvery: int)
    requires !MainMapLoop(scraped, saveEvery).crashed
    ensures Accounted(MainMapLoop(scraped, saveEvery), true) == Concat(NonEmpty(scraped, true))
    ensures Accounted(MainMapLoop(scraped, saveEvery), false) == Concat(NonEmpty(scraped, false))
  {
    if |scraped| > 0 {
      var n := |scraped| - 1;
      var init := scraped[..n];
      var prev := MainMapLoop(init, saveEvery);
      MainMapConservation(init, saveEvery);
      var (s, c) := scraped[n];
      assert init + [(s, c)] == scraped;
      NonEmptySnoc(init, s, c);
      MainMapStepRows(prev, s, c, saveEvery, true);
      MainMapStepRows(prev, s, c, saveEvery, false);
    }
  }

  /** A checkpoint adds each buffer's rows to its own table. */
  lemma FlushRows<R>(stations: seq<R>, checkins: seq<R>)
    ensures var flush := SaveLog(StationsTable, stations) + SaveLog(CheckinsTable, checkins);
      TableRows(flush, StationsTable) == stations && TableRows(flush, CheckinsTable) == checkins
  {
    var a := SaveLog(StationsTable, stations);
    var b := SaveLog(CheckinsTable, checkins);
    TableRowsAppend(a, b, StationsTable);
    TableRowsAppend(a, b, CheckinsTable);
    assert StationsTable != CheckinsTable;
    if |a| == 1 { assert a[..0] == []; }
    if |b| == 1 { assert b[..0] == []; }
  }

  /**
   * A run that returns has inserted every non-empty station and check-in
   * frame, in location order, and returns exactly the rows buffered since
   * the last checkpoint.
   */
  lemma MainMapRunSavesEverything<R>(scraped: seq<(seq<R>, seq<R>)>, saveEvery: int)
    requires MainMapRun(scraped, saveEvery).1.Success?
    ensures var (log, r) := MainMapRun(scraped, saveEvery);
      TableRows(log, StationsTable) == Concat(NonEmpty(scraped, true)) &&
      TableRows(log, CheckinsTable) == Concat(NonEmpty(scraped, false)) &&
      r.value.0 == Concat(MainMapLoop(scraped, saveEvery).stations) &&
      r.value.1 == Concat(MainMapLoop(scraped, saveEvery).checkins)
  {
    var st := MainMapLoop(scraped, saveEvery);
    MainMapConservation(scraped, saveEvery);
    FlushAccounted(st.saves, st.stations, st.checkins);
    var log := st.saves + SaveLog(StationsTable, Concat(st.stations)) + SaveLog(CheckinsTable, Concat(st.checkins));
    assert MainMapRun(scraped, saveEvery) == (log, Success((Concat(st.stations), Concat(st.checkins))));
  }

  /**
   * When the last location triggers a checkpoint, both buffers are empty at
   * the end and the final pd.concat raises, after everything was inserted.
   */
  lemma MainMapRaisesAfterLastCheckpoint<R>(s1: R, c1: R, s2: R, c2: R)
    ensures MainMapRun([([s1], [c1]), ([s2], [c2])], 2) ==
      ([Save(StationsTable, [s1, s2]), Save(CheckinsTable, [c1, c2])], Failure(NoObjectsToConcatenate))
  {
    var scraped := [([s1], [c1]), ([s2], [c2])];
    assert scraped[..1][..0] == [];
    var first := MainMapState([[s1]], [[c1]], [], false);
    var empty := MainMapState([], [], [], false);
    assert MainMapLoop(scraped[..1][..0], 2) == empty;
    assert scraped[..1][0] == ([s1], [c1]);
    assert MainMapStep(empty, ([s1], [c1]), 2) == first;
    assert MainMapLoop(scraped[..1], 2) == first;
    assert scraped[..|scraped| - 1] == scraped[..1];
    assert Concat([[s1], [s2]]) == [s1, s2] by {
      assert [[s1], [s2]][..1] == [[s1]] && [[s1]][..0] == [];
      assert Concat([[s1]]) == [s1];
    }
    assert Concat([[c1], [c2]]) == [c1, c2] by {
      assert [[c1], [c2]][..1] == [[c1]] && [[c1]][..0] == [];
      assert Concat([[c1]]) == [c1];
    }
    var saves := [] + SaveLog(StationsTable, [s1, s2]) + SaveLog(CheckinsTable, [c1, c2]);
    assert saves == [Save(StationsTable, [s1, s2]), Save(CheckinsTable, [c1, c2])];
    assert MainMapStep(first, scraped[1], 2) == MainMapState([], [], saves, false);
    assert MainMapLoop(scraped, 2) == MainMapState([], [], saves, false);
  }

  /** A checkpoint whose locations had no check-ins raises on the empty check-in buffer. */
  lemma MainMapRaisesWithoutCheckins<R>(s1: R)
    ensures MainMapRun([([s1], [])], 1) == ([], Failure(NoObjectsToConcatenate))
  {
    var scraped: seq<(seq<R>, seq<R>)> := [([s1], [])];
    assert scraped[..0] == [];
    assert MainMapLoop(scraped, 1) == MainMapState([[s1]], [], [], true);
  }

  class MainMapScraper<R> {
    const saveEvery: int
    /** Every insert into BigQuery, in order. */
    var saved: seq<Save<R>>

    constructor (saveEvery: int)
      ensures this.saveEvery == saveEvery && saved == []
    {
      this.saveEvery := saveEvery;
      saved := [];
    }

    method SaveToBigQuery(data: seq<R>, tableName: string)
      modifies this`saved
      ensures saved == old(saved) + SaveLog(tableName, data)
    {
      if |data| > 0 {
        saved := saved + [Save(tableName, data)];
      }
    }

    /**
     * The block run executes at a checkpoint and again after the loop:
     * concatenate both buffers (pd.concat raises on an empty list, before
     * anything is inserted) and insert stations, then check-ins.
     */
    method SaveBuffers(stations: seq<seq<R>>, checkins: seq<seq<R>>) returns (r: Result<(seq<R>, seq<R>), RunError>)
      modifies this`saved
      ensures r.Failure? <==> |stations| == 0 || |checkins| == 0
      ensures r.Failure? ==> r.error == NoObjectsToConcatenate && saved == old(saved)
      ensures r.Success? ==> r.value == (Concat(stations), Concat(checkins))
      ensures r.Success? ==> saved == old(saved) + SaveLog(StationsTable, Concat(stations)) + SaveLog(CheckinsTable, Concat(checkins))
    {
      if |stations| == 0 || |checkins| == 0 {
        return Failure(NoObjectsToConcatenate);
      }
      var stationRows := Concat(stations);
      var checkinRows := Concat(checkins);
      SaveToBigQuery(stationRows, StationsTable);
      SaveToBigQuery(checkinRows, CheckinsTable);
      return Success((stationRows, checkinRows));
    }

    /**
     * One iteration of the loop in run: buffer the location's non-empty
     * frames, then save a checkpoint once the station buffer holds
     * save_every frames. `raised` is true when the checkpoint's pd.concat
     * raised.
     */
    method Visit(stations: seq<seq<R>>, checkins: seq<seq<R>>, location: (seq<R>, seq<R>))
      returns (newStations: seq<seq<R>>, newCheckins: seq<seq<R>>, raised: bool)
      modifies this`saved
      ensures var next := MainMapStep(MainMapState(stations, checkins, [], false), location, saveEvery);
        raised == next.crashed && saved == old(saved) + next.saves &&
        (!raised ==> newStations == next.stations && newCheckins == next.checkins)
    {
      var (dfStation, dfCheckins) := location;
      newStations, newCheckins := stations, checkins;
      if |dfStation| > 0 {
        newStations := newStations + [dfStation];
      }
      if |dfCheckins| > 0 {
        newCheckins := newCheckins + [dfCheckins];
      }
      raised := false;
      if |newStations| >= saveEvery {
        var checkpoint := SaveBuffers(newStations, newCheckins);
        if checkpoint.Failure? {
          return newStations, newCheckins, true;
        }
        newStations := [];
        newCheckins := [];
      }
    }

    /**
     * MainMapScraper.run over the frames scrape_location returned for each
     * location, in order.
     */
    method Run(scraped: seq<(seq<R>, seq<R>)>) returns (r: Result<(seq<R>, seq<R>), RunError>)
      modifies this`saved
      ensures saved == old(saved) + MainMapRun(scraped, saveEvery).0
      ensures r == MainMapRun(scraped, saveEvery).1
    {
      var allStations: seq<seq<R>> := [];
      var allCheckins: seq<seq<R>> := [];
      ghost var st: MainMapState<R> := MainMapState([], [], [], false);
      var i := 0;
      while i < |scraped|
        invariant 0 <= i <= |scraped|
        invariant st == MainMapLoop(scraped[..i], saveEvery)
        invariant !st.crashed && allStations == st.stations && allCheckins == st.checkins
        invariant saved == old(saved) + st.saves
      {
        MainMapLoopSnoc(scraped, i, saveEvery);
        MainMapStepSaves(st, scraped[i], saveEvery);
        ghost var next := MainMapStep(st, scraped[i], saveEvery);
        ghost var before := saved;
        var raised;
        allStations, allCheckins, raised := Visit(allStations, allCheckins, scraped[i]);
        LogAppend(old(saved), st.saves, saved[|before|..]);
        if raised {
          MainMapRaised(scraped, i + 1, saveEvery);
          return Failure(NoObjectsToConcatenate);
        }
        st := next;
        i := i + 1;
      }
      MainMapFinished(scraped, saveEvery);
      r := SaveBuffers(allStations, allCheckins);
      LogAssoc(old(saved), st.saves, SaveLog(StationsTable, Concat(st.stations)), SaveLog(CheckinsTable, Concat(st.checkins)));
      assert (saved, r) == (old(saved) + MainMapFinish(st).0, MainMapFinish(st).1);
    }
  }

  // ----- LocationIDScraper.run -----

  /** One location of the region API response: the columns run reads. */
  datatype ApiLocation = ApiLocation(id: int, connectorTypes: seq<string>, latitude: real, longitude: real, underRepair: bool)

  /** The fields of SearchCriterion that run reads; the rest only drive the browser. */
  datatype SearchCriterion = SearchCriterion(cellId: string, cellType: string)

  /** One row of the frame built for a search cell (the uuid and timestamp columns are left out). */
  datatype LocationRow = LocationRow(
    plugTypes: string,
    locationId: string,
    latitude: real,
    longitude: real,
    searchCellId: Option<string>,
    searchCellIdNrel: Option<string>,
    underRepair: bool)

  const LocationIdTable := "locationID"

  /**
   * The frame run builds from the locations found for one criterion: the
   * cell id goes in the NREL column for an 'NREL' cell and in the other
   * column otherwise, and the unused column is None.
   */
  function LocationRows(c: SearchCriterion, found: seq<ApiLocation>): (rows: seq<LocationRow>)
    ensures |rows| == |found|
    ensures forall k :: 0 <= k < |found| ==>
      rows[k].locationId == IntToStr(found[k].id) && rows[k].plugTypes == Join(found[k].connectorTypes, ';') &&
      rows[k].latitude == found[k].latitude && rows[k].longitude == found[k].longitude &&
      rows[k].underRepair == found[k].underRepair
    ensures forall k :: 0 <= k < |found| ==>
      if c.cellType == "NREL" then rows[k].searchCellIdNrel == Some(c.cellId) && rows[k].searchCellId.None?
      else rows[k].searchCellId == Some(c.cellId) && rows[k].searchCellIdNrel.None?
  {
    var nrel := c.cellType == "NREL";
    seq(|found|, k requires 0 <= k < |found| =>
      LocationRow(Join(found[k].connectorTypes, ';'), IntToStr(found[k].id), found[k].latitude, found[k].longitude,
                  if nrel then None else Some(c.cellId), if nrel then Some(c.cellId) else None,
                  found[k].underRepair))
  }

  function Ids(rows: seq<LocationRow>): set<string> {
    set k | 0 <= k < |rows| :: rows[k].locationId
  }

  /** rows[i] is the first row with its location id. */
  ghost predicate FirstOccurrence(rows: seq<LocationRow>, i: int) {
    0 <= i < |rows| && forall j :: 0 <= j < i ==> rows[j].locationId != rows[i].locationId
  }

  lemma IdsCons(x: LocationRow, rest: seq<LocationRow>)
    ensures Ids([x] + rest) == {x.locationId} + Ids(rest)
  {
    var r := [x] + rest;
    forall id | id in Ids(r) ensures id in {x.locationId} + Ids(rest) {
      var k :| 0 <= k < |r| && r[k].locationId == id;
      if k > 0 { assert r[k] == rest[k - 1]; }
    }
    forall id | id in Ids(rest) ensures id in Ids(r) {
      var k :| 0 <= k < |rest| && rest[k].locationId == id;
      assert r[k + 1] == rest[k];
    }
    assert r[0] == x;
  }

  /** drop_duplicates(subset=['location_id']) keeping the first row of each id, skipping ids in `seen`. */
  function DedupeFrom(rows: seq<LocationRow>, seen: set<string>): (r: seq<LocationRow>)
    ensures forall k :: 0 <= k < |r| ==> r[k].locationId !in seen
    ensures Unique(r)
    ensures Ids(r) == Ids(rows) - seen
  {
    if |rows| == 0 then []
    else
      var id := rows[0].locationId;
      var rest := DedupeFrom(rows[1..], seen + {id});
      IdsCons(rows[0], rows[1..]);
      assert [rows[0]] + rows[1..] == rows;
      if id in seen then
        assert seen + {id} == seen;
        rest
      else
        IdsCons(rows[0], rest);
        [rows[0]] + rest
  }

  function Dedupe(rows: seq<LocationRow>): seq<LocationRow> {
    DedupeFrom(rows, {})
  }

  /**
   * r is rows[idx[0]], rows[idx[1]], ... for strictly increasing indices,
   * and no earlier row of `rows` has the id of a row kept.
   */
  ghost predicate KeepsFirst(rows: seq<LocationRow>, r: seq<LocationRow>, idx: seq<nat>) {
    |idx| == |r| &&
    (forall k :: 0 <= k < |r| ==> idx[k] < |rows| && r[k] == rows[idx[k]]) &&
    (forall k, l :: 0 <= k < l < |r| ==> idx[k] < idx[l]) &&
    (forall k, j :: 0 <= k < |r| && 0 <= j < idx[k] ==> rows[j].locationId != r[k].locationId)
  }

  function Shift(idx: seq<nat>): (r: seq<nat>)
    ensures |r| == |idx| && forall k :: 0 <= k < |idx| ==> r[k] == idx[k] + 1
  {
    seq(|idx|, k requires 0 <= k < |idx| => idx[k] + 1)
  }

  /** Rows kept from rows[1..] are kept from rows at indices one higher, and rows[0] may go in front. */
  lemma KeepsFirstCons(rows: seq<LocationRow>, rest: seq<LocationRow>, idxRest: seq<nat>)
    requires |rows| > 0 && KeepsFirst(rows[1..], rest, idxRest)
    requires forall k :: 0 <= k < |rest| ==> rest[k].locationId != rows[0].locationId
    ensures KeepsFirst(rows, rest, Shift(idxRest))
    ensures KeepsFirst(rows, [rows[0]] + rest, [0] + Shift(idxRest))
  {
    var tail := rows[1..];
    var sh := Shift(idxRest);
    forall k | 0 <= k < |rest| ensures sh[k] < |rows| && rest[k] == rows[sh[k]] {
      assert rest[k] == tail[idxRest[k]];
    }
    forall k, j | 0 <= k < |rest| && 0 <= j < sh[k] ensures rows[j].locationId != rest[k].locationId {
      if j > 0 { assert rows[j] == tail[j - 1]; }
    }
    var r := [rows[0]] + rest;
    var idx := [0] + sh;
    forall k | 0 < k < |r| ensures idx[k] < |rows| && r[k] == rows[idx[k]] {
      assert r[k] == rest[k - 1] && idx[k] == sh[k - 1];
    }
    forall k, l | 0 <= k < l < |r| ensures idx[k] < idx[l] {
      assert idx[l] == sh[l - 1];
      if k > 0 { assert idx[k] == sh[k - 1]; }
    }
    forall k, j | 0 <= k < |r| && 0 <= j < idx[k] ensures rows[j].locationId != r[k].locationId {
      assert k > 0 && r[k] == rest[k - 1] && idx[k] == sh[k - 1];
    }
  }

  /** De-duplication keeps rows of the input, in input order, each at the first occurrence of its id. */
  lemma {:induction false} DedupeKeepsFirst(rows: seq<LocationRow>, seen: set<string>)
    ensures exists idx :: KeepsFirst(rows, DedupeFrom(rows, seen), idx)
  {
    var r := DedupeFrom(rows, seen);
    if |rows| == 0 {
      assert KeepsFirst(rows, r, []);
    } else {
      var id := rows[0].locationId;
      var rest := DedupeFrom(rows[1..], seen + {id});
      DedupeKeepsFirst(rows[1..], seen + {id});
      var idxRest :| KeepsFirst(rows[1..], rest, idxRest);
      KeepsFirstCons(rows, rest, idxRest);
      if id in seen {
        assert seen + {id} == seen;
        assert KeepsFirst(rows, r, Shift(idxRest));
      } else {
        assert KeepsFirst(rows, r, [0] + Shift(idxRest));
      }
    }
  }

  /** The loop state of LocationIDScraper.run: the buffered frames and what was inserted. */
  datatype LocationState = LocationState(dfs: seq<seq<LocationRow>>, saves: seq<Save<LocationRow>>)

  /** Whether grab_location_ids found nothing: None or an empty frame. */
  predicate NothingFound(found: Option<seq<ApiLocation>>) {
    found.None? || |found.value| == 0
  }

  /** One iteration: skip an empty result, else buffer its frame and flush once the buffered rows reach saveEvery. */
  function LocationStep(st: LocationState, search: (SearchCriterion, Option<seq<ApiLocation>>), saveEvery: int): LocationState {
    if NothingFound(search.1) then st
    else
      var dfs := st.dfs + [LocationRows(search.0, search.1.value)];
      if |Concat(dfs)| >= saveEvery then LocationState([], st.saves + SaveLog(LocationIdTable, Dedupe(Concat(dfs))))
      else LocationState(dfs, st.saves)
  }

  function LocationLoop(searches: seq<(SearchCriterion, Option<seq<ApiLocation>>)>, saveEvery: int): LocationState {
    if |searches| == 0 then LocationState([], [])
    else LocationStep(LocationLoop(searches[..|searches| - 1], saveEvery), searches[|searches| - 1], saveEvery)
  }

  /** What LocationIDScraper.run inserts, and the de-duplicated rows it returns (None when nothing is buffered). */
  function LocationIdRun(searches: seq<(SearchCriterion, Option<seq<ApiLocation>>)>, saveEvery: int)
    : (seq<Save<LocationRow>>, Option<seq<LocationRow>>)
  {
    var st := LocationLoop(searches, saveEvery);
    if |st.dfs| > 0 then
      var rows := Dedupe(Concat(st.dfs));
      (st.saves + SaveLog(LocationIdTable, rows), Some(rows))
    else (st.saves, None)
  }

  /** Every location id found, over all criteria that found something. */
  function FoundIds(searches: seq<(SearchCriterion, Option<seq<ApiLocation>>)>): set<string> {
    if |searches| == 0 then {}
    else
      var s := searches[|searches| - 1];
      FoundIds(searches[..|searches| - 1]) +
        (if NothingFound(s.1) then {} else Ids(LocationRows(s.0, s.1.value)))
  }

  /** Every location id inserted so far. */
  function SavedIds(log: seq<Save<LocationRow>>): set<string> {
    if |log| == 0 then {} else SavedIds(log[..|log| - 1]) + Ids(log[|log| - 1].rows)
  }

  lemma IdsAppend(a: seq<LocationRow>, b: seq<LocationRow>)
    ensures Ids(a + b) == Ids(a) + Ids(b)
  {
    forall id | id in Ids(a + b) ensures id in Ids(a) + Ids(b) {
      var k :| 0 <= k < |a + b| && (a + b)[k].locationId == id;
      if k >= |a| { assert b[k - |a|].locationId == id; }
    }
    forall id | id in Ids(b) ensures id in Ids(a + b) {
      var k :| 0 <= k < |b| && b[k].locationId == id;
      assert (a + b)[|a| + k] == b[k];
    }
    forall id | id in Ids(a) ensures id in Ids(a + b) {
      var k :| 0 <= k < |a| && a[k].locationId == id;
      assert (a + b)[k] == a[k];
    }
  }

  lemma IdsConcat(frames: seq<seq<LocationRow>>, more: seq<LocationRow>)
    ensures Ids(Concat(frames + [more])) == Ids(Concat(frames)) + Ids(more)
  {
    assert (frames + [more])[..|frames|] == frames;
    assert Concat(frames + [more]) == Concat(frames) + more;
    IdsAppend(Concat(frames), more);
  }

  /**
   * The loop invariant of LocationIDScraper.run: with save_every >= 1 the
   * buffered rows stay below save_every, every buffered frame is
   * non-empty, each insert is into locationID and holds no location id
   * twice, and the ids inserted plus those buffered are exactly `found`.
   */
  ghost predicate LocationInvariant(st: LocationState, saveEvery: int, found: set<string>) {
    (saveEvery >= 1 ==> |Concat(st.dfs)| < saveEvery) &&
    (forall i :: 0 <= i < |st.dfs| ==> |st.dfs[i]| > 0) &&
    (forall i :: 0 <= i < |st.saves| ==> st.saves[i].table == LocationIdTable && Unique(st.saves[i].rows)) &&
    SavedIds(st.saves) + Ids(Concat(st.dfs)) == found
  }

  lemma SavedIdsSnoc(log: seq<Save<LocationRow>>, s: Save<LocationRow>)
    ensures SavedIds(log + [s]) == SavedIds(log) + Ids(s.rows)
  {
    assert (log + [s])[..|log|] == log;
  }

  /** The rows of a non-empty buffer whose last frame is non-empty hold at least one id. */
  lemma BufferHasId(dfs: seq<seq<LocationRow>>, rows: seq<LocationRow>)
    requires |rows| > 0
    ensures rows[0].locationId in Ids(Concat(dfs + [rows]))
  {
    IdsConcat(dfs, rows);
    assert rows[0].locationId in Ids(rows);
  }

  /** A flush inserts the de-duplicated buffer: a locationID insert without repeated ids and with the same ids. */
  lemma FlushIds(dfs: seq<seq<LocationRow>>, rows: seq<LocationRow>, saves: seq<Save<LocationRow>>)
    requires |rows| > 0
    ensures var d := Dedupe(Concat(dfs + [rows]));
      |d| > 0 && SaveLog(LocationIdTable, d) == [Save(LocationIdTable, d)] &&
      SavedIds(saves + [Save(LocationIdTable, d)]) == SavedIds(saves) + Ids(Concat(dfs + [rows]))
  {
    var d := Dedupe(Concat(dfs + [rows]));
    BufferHasId(dfs, rows);
    assert Ids(d) == Ids(Concat(dfs + [rows]));
    SavedIdsSnoc(saves, Save(LocationIdTable, d));
  }

  /** One iteration keeps the invariant, adding the ids the criterion found. */
  lemma LocationStepInvariant(prev: LocationState, s: (SearchCriterion, Option<seq<ApiLocation>>), saveEvery: int, found: set<string>)
    requires LocationInvariant(prev, saveEvery, found)
    ensures LocationInvariant(LocationStep(prev, s, saveEvery), saveEvery,
                              found + (if NothingFound(s.1) then {} else Ids(LocationRows(s.0, s.1.value))))
  {
    if !NothingFound(s.1) {
      var rows := LocationRows(s.0, s.1.value);
      var dfs := prev.dfs + [rows];
      IdsConcat(prev.dfs, rows);
      if |Concat(dfs)| >= saveEvery {
        FlushIds(prev.dfs, rows, prev.saves);
        var d := Dedupe(Concat(dfs));
        var st := LocationState([], prev.saves + [Save(LocationIdTable, d)]);
        assert LocationStep(prev, s, saveEvery) == st;
        assert Concat<LocationRow>([]) == [];
        assert Ids([]) == {};
      } else {
        assert LocationStep(prev, s, saveEvery) == LocationState(dfs, prev.saves);
      }
    }
  }

  /** The invariant holds after every prefix of the criteria, with `found` the ids found so far. */
  lemma {:induction false} LocationLoopInvariant(searches: seq<(SearchCriterion, Option<seq<ApiLocation>>)>, saveEvery: int)
    ensures LocationInvariant(LocationLoop(searches, saveEvery), saveEvery, FoundIds(searches))
  {
    if |searches| == 0 {
      assert Concat<LocationRow>([]) == [];
      assert Ids([]) == {};
    } else {
      var n := |searches| - 1;
      LocationLoopInvariant(searches[..n], saveEvery);
      LocationStepInvariant(LocationLoop(searches[..n], saveEvery), searches[n], saveEvery, FoundIds(searches[..n]));
    }
  }

  ghost predicate Unique(rows: seq<LocationRow>) {
    forall k, l :: 0 <= k < l < |rows| ==> rows[k].locationId != rows[l].locationId
  }

  /**
   * The value run returns: None exactly when nothing is buffered at the
   * end; otherwise duplicate-free rows, which are also the last insert,
   * and together with the earlier inserts they cover every id found.
   */
  lemma LocationIdRunResult(searches: seq<(SearchCriterion, Option<seq<ApiLocation>>)>, saveEvery: int)
    ensures var (log, r) := LocationIdRun(searches, saveEvery);
      (r.None? <==> |LocationLoop(searches, saveEvery).dfs| == 0) &&
      (r.Some? ==> Unique(r.value) && |r.value| > 0 && log[|log| - 1] == Save(LocationIdTable, r.value)) &&
      SavedIds(log) == FoundIds(searches)
  {
    var st := LocationLoop(searches, saveEvery);
    LocationLoopInvariant(searches, saveEvery);
    if |st.dfs| > 0 {
      var rows := Dedupe(Concat(st.dfs));
      assert Concat(st.dfs) == Concat(st.dfs[..|st.dfs| - 1]) + st.dfs[|st.dfs| - 1];
      assert st.dfs[|st.dfs| - 1][0].locationId in Ids(Concat(st.dfs)) by {
        var a := Concat(st.dfs[..|st.dfs| - 1]);
        assert Concat(st.dfs)[|a|] == st.dfs[|st.dfs| - 1][0];
      }
      var log := st.saves + SaveLog(LocationIdTable, rows);
      assert log[..|log| - 1] == st.saves;
    } else {
      assert Concat(st.dfs) == [];
    }
  }

  /** A criterion that found nothing leaves the buffers and the inserts as they were. */
  lemma LocationSkipsNothingFound(searches: seq<(SearchCriterion, Option<seq<ApiLocation>>)>,
                                  c: SearchCriterion, found: Option<seq<ApiLocation>>, saveEvery: int)
    requires NothingFound(found)
    ensures LocationLoop(searches + [(c, found)], saveEvery) == LocationLoop(searches, saveEvery)
  {
    assert (searches + [(c, found)])[..|searches|] == searches;
  }

  class LocationIdScraper {
    const saveEvery: int
    /** Every insert into BigQuery, in order. */
    var saved: seq<Save<LocationRow>>

    constructor (saveEvery: int)
      ensures this.saveEvery == saveEvery && saved == []
    {
      this.saveEvery := saveEvery;
      saved := [];
    }

    method SaveToBigQuery(data: seq<LocationRow>, tableName: string)
      modifies this`saved
      ensures saved == old(saved) + SaveLog(tableName, data)
    {
      if |data| > 0 {
        saved := saved + [Save(tableName, data)];
      }
    }

    /**
     * LocationIDScraper.run over each search criterion paired with what
     * grab_location_ids returned for it, in order.
     */
    method Run(searches: seq<(SearchCriterion, Option<seq<ApiLocation>>)>) returns (r: Option<seq<LocationRow>>)
      modifies this`saved
      ensures saved == old(saved) + LocationIdRun(searches, saveEvery).0
      ensures r == LocationIdRun(searches, saveEvery).1
    {
      var dfs: seq<seq<LocationRow>> := [];
      var i := 0;
      while i < |searches|
        invariant 0 <= i <= |searches|
        invariant dfs == LocationLoop(searches[..i], saveEvery).dfs
        invariant saved == old(saved) + LocationLoop(searches[..i], saveEvery).saves
      {
        assert searches[..i + 1][..i] == searches[..i];
        var (criterion, found) := searches[i];
        if found.None? || |found.value| == 0 {
          i := i + 1;
          continue;
        }
        dfs := dfs + [LocationRows(criterion, found.value)];
        if |dfs| > 0 && |Concat(dfs)| >= saveEvery {
          var checkpoint := Dedupe(Concat(dfs));
          SaveToBigQuery(checkpoint, LocationIdTable);
          dfs := [];
        }
        i := i + 1;
      }
      assert searches[..|searches|] == searches;
      if |dfs| > 0 {
        var rows := Dedupe(Concat(dfs));
        SaveToBigQuery(rows, LocationIdTable);
        return Some(rows);
      }
      return None;
    }
  }
}
