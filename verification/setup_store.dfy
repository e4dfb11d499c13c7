/** The saved-setup service (`tankSetupService.ts`): how a form setup becomes rows of the
    `tank_setups`, `tank_fish`, `tank_corals` and `analysis_results` tables, how the rows are
    read back and turned into a form setup again, and what each operation leaves behind when a
    write fails. The database is a value of `Store`; every write the code awaits has its outcome
    as a parameter. */
module SetupStore {
  import opened Wrappers
  import opened Json
  import opened SetupForm
  import Http

  type UserId = Http.UserId

  /** A fish or coral row's payload. */
  datatype Line = Line(speciesId: string, quantity: real)

  /** A `tank_setups` row; `None` is SQL `null`. */
  datatype SetupRow = SetupRow(
    id: string,
    owner: UserId,
    name: string,
    volume: real,
    lighting: string,
    filtration: seq<string>,
    hasProteinSkimmer: bool,
    hasHeater: bool,
    hasWavemaker: bool,
    waterPh: Option<real>,
    waterSalinity: Option<real>,
    waterTemperature: Option<real>)

  datatype LineRow = LineRow(setupId: string, line: Line)

  /** An `analysis_results` row. `createdAt` is the row's creation time as a number. */
  datatype AnalysisRow = AnalysisRow(setupId: string, score: real, summary: Option<string>, breakdown: Option<Json>, createdAt: int)

  datatype Store = Store(setups: seq<SetupRow>, fish: seq<LineRow>, corals: seq<LineRow>, analyses: seq<AnalysisRow>)

  /** An `AnalysisResult`: what the analysis endpoint answered, as the client keeps it. */
  datatype AnalysisResult = AnalysisResult(score: real, summary: Option<string>, result: Option<string>, breakdown: Option<Json>)

  /** A `SavedTankSetup`: a setup row with its fish, corals and latest analysis. */
  datatype SavedSetup = SavedSetup(row: SetupRow, fish: seq<Line>, corals: seq<Line>, analysis: Option<AnalysisResult>)

  const LoginToSave := "You must be logged in to save " + "tank setups"
  const LoginToView := "You must be logged in to view " + "tank setups"
  const LoginToDelete := "You must be logged in to " + "delete tank setups"
  const LoginToUpdate := "You must be logged in to " + "update tank setups"
  /** The message `.single()` fails with when no row (or more than one) matches. The service's
      wording is not part of the model. */
  const NoSingleRow := "no single row"

  /** `x || null` and `x || undefined` for a number: a falsy number is dropped. */
  function Truthful(o: Option<real>): (r: Option<real>)
    ensures r.Some? <==> Entered(o)
    ensures r.Some? ==> r == o
  {
    if Entered(o) then o else None
  }

  /** `a || b || null` for two optional texts. */
  function FirstText(a: Option<string>, b: Option<string>): (r: Option<string>)
    ensures r.Some? ==> r.value != [] && (r == a || r == b)
    ensures r.None? <==> (a.None? || a.value == []) && (b.None? || b.value == [])
    ensures a.Some? && a.value != [] ==> r == a
  {
    if a.Some? && a.value != [] then a else if b.Some? && b.value != [] then b else None
  }

  /** `breakdown || null`. */
  function PresentJson(o: Option<Json>): (r: Option<Json>)
    ensures r.Some? <==> Present(o)
    ensures r.Some? ==> r == o
  {
    if Present(o) then o else None
  }

  /** The row `saveTankSetup` inserts: the form's fields copied, falsy readings as `null`. */
  function RowFor(id: string, owner: UserId, name: string, s: TankSetup): (r: SetupRow)
    ensures r.id == id && r.owner == owner && r.name == name
    ensures r.volume == s.volume && r.lighting == s.lighting && r.filtration == s.filtration
    ensures r.hasProteinSkimmer == s.hasProteinSkimmer && r.hasHeater == s.hasHeater && r.hasWavemaker == s.hasWavemaker
    ensures r.waterPh.Some? <==> Entered(s.waterParams.ph)
    ensures r.waterSalinity.Some? <==> Entered(s.waterParams.salinity)
    ensures r.waterTemperature.Some? <==> Entered(s.waterParams.temperature)
  {
    SetupRow(id, owner, name, s.volume, s.lighting, s.filtration,
             s.hasProteinSkimmer, s.hasHeater, s.hasWavemaker,
             Truthful(s.waterParams.ph), Truthful(s.waterParams.salinity), Truthful(s.waterParams.temperature))
  }

  /** The payload of each entry (`{ species_id: e.species, quantity: e.quantity }`). */
  function LinesOf(entries: seq<Entry>): (r: seq<Line>)
    ensures |r| == |entries|
    ensures forall i :: 0 <= i < |entries| ==> r[i] == Line(entries[i].species, entries[i].quantity)
  {
    seq(|entries|, i requires 0 <= i < |entries| => Line(entries[i].species, entries[i].quantity))
  }

  /** The entries of a list of loaded rows (`map(f => ({ species: f.species_id, quantity: f.quantity }))`). */
  function EntriesOf(lines: seq<Line>): (r: seq<Entry>)
    ensures |r| == |lines|
    ensures forall i :: 0 <= i < |lines| ==> r[i] == Entry(lines[i].speciesId, lines[i].quantity)
  {
    seq(|lines|, i requires 0 <= i < |lines| => Entry(lines[i].speciesId, lines[i].quantity))
  }

  /** Writing entries as rows and reading them back gives the same entries, in the same order. */
  lemma EntriesRoundTrip(entries: seq<Entry>)
    ensures EntriesOf(LinesOf(entries)) == entries
  {
  }

  /** The rows of a batch insert for setup `id`. */
  function Tag(id: string, lines: seq<Line>): (r: seq<LineRow>)
    ensures |r| == |lines| && forall i :: 0 <= i < |lines| ==> r[i] == LineRow(id, lines[i])
  {
    seq(|lines|, i requires 0 <= i < |lines| => LineRow(id, lines[i]))
  }

  /** `.select('species_id, quantity').eq('tank_setup_id', id)`: the payloads of the rows of
      setup `id`, in table order. */
  function LinesFor(rows: seq<LineRow>, id: string): (r: seq<Line>)
    ensures |r| <= |rows|
    ensures (forall k :: 0 <= k < |rows| ==> rows[k].setupId != id) ==> r == []
    decreases |rows|
  {
    if |rows| == 0 then []
    else LinesFor(rows[..|rows| - 1], id) + (if rows[|rows| - 1].setupId == id then [rows[|rows| - 1].line] else [])
  }

  /** Reading the rows of `id` after appending rows distributes over the append. */
  lemma {:induction false} LinesForAppend(rows: seq<LineRow>, extra: seq<LineRow>, id: string)
    ensures LinesFor(rows + extra, id) == LinesFor(rows, id) + LinesFor(extra, id)
    decreases |extra|
  {
    if |extra| > 0 {
      var n := |extra|;
      assert (rows + extra)[..|rows + extra| - 1] == rows + extra[..n - 1];
      LinesForAppend(rows, extra[..n - 1], id);
    } else {
      assert rows + extra == rows;
    }
  }

  /** The rows of one batch insert read back as the batch, in order. */
  lemma {:induction false} LinesForTag(id: string, lines: seq<Line>)
    ensures LinesFor(Tag(id, lines), id) == lines
    decreases |lines|
  {
    if |lines| > 0 {
      var n := |lines|;
      assert Tag(id, lines)[..n - 1] == Tag(id, lines[..n - 1]);
      LinesForTag(id, lines[..n - 1]);
      assert lines == lines[..n - 1] + [lines[n - 1]];
    }
  }

  /** The analysis rows of setup `id`, in table order. */
  function AnalysesFor(rows: seq<AnalysisRow>, id: string): (r: seq<AnalysisRow>)
    ensures forall k :: 0 <= k < |r| ==> r[k] in rows && r[k].setupId == id
    ensures forall x :: x in rows && x.setupId == id ==> x in r
    decreases |rows|
  {
    if |rows| == 0 then []
    else (if rows[0].setupId == id then [rows[0]] else []) + AnalysesFor(rows[1..], id)
  }

  /** The position of the newest analysis: a row with the greatest `createdAt`, the first such
      row when several share it (`sort` is stable, so it keeps the first of equal rows in
      front). */
  function Latest(rows: seq<AnalysisRow>): (r: Option<nat>)
    ensures r.None? <==> |rows| == 0
    ensures r.Some? ==> r.value < |rows|
    ensures r.Some? ==> forall j :: 0 <= j < |rows| ==> rows[j].createdAt <= rows[r.value].createdAt
    ensures r.Some? ==> forall j :: 0 <= j < r.value ==> rows[j].createdAt < rows[r.value].createdAt
    decreases |rows|
  {
    if |rows| == 0 then None
    else
      match Latest(rows[1..])
      case None => Some(0)
      case Some(k) => if rows[0].createdAt >= rows[1..][k].createdAt then Some(0) else Some(k + 1)
  }

  /** `analysisData ? { score, summary: summary || undefined, breakdown: breakdown || undefined } : null`. */
  function ReadAnalysis(rows: seq<AnalysisRow>): (r: Option<AnalysisResult>)
    ensures r.None? <==> rows == []
    ensures r.Some? ==> exists k :: 0 <= k < |rows| && r.value.score == rows[k].score
                                    && (forall j :: 0 <= j < |rows| ==> rows[j].createdAt <= rows[k].createdAt)
    ensures r.Some? ==> var k := Latest(rows).value;
            && r.value.score == rows[k].score && r.value.result.None?
            && r.value.summary == FirstText(rows[k].summary, None)
            && r.value.breakdown == PresentJson(rows[k].breakdown)
  {
    match Latest(rows)
    case None => None
    case Some(k) =>
      var a := rows[k];
      Some(AnalysisResult(a.score, FirstText(a.summary, None), None, PresentJson(a.breakdown)))
  }

  /** What the reads of `getTankSetup` answer besides the setup row: an error of the fish
      query, of the coral query, and whether the analysis query fails with anything but "no
      rows" (which is only logged and leaves no analysis). */
  datatype ReadEnv = ReadEnv(fishError: Option<string>, coralError: Option<string>, analysisError: bool)

  /** Every read succeeds. */
  const ReadsPass := ReadEnv(None, None, false)

  /** `getTankSetup(id)`: the caller's setup row with this id, its fish and corals, and its
      newest analysis. It succeeds exactly when the caller has one row with this id and both
      line queries answer. */
  function Load(store: Store, user: Option<UserId>, id: string, replies: ReadEnv): (r: Result<SavedSetup, string>)
    ensures user.None? ==> r == Failure(LoginToView)
    ensures r.Success? <==> user.Some? && |Matching(store.setups, id, user.value)| == 1
                            && replies.fishError.None? && replies.coralError.None?
    ensures user.Some? && |Matching(store.setups, id, user.value)| == 1 && replies.fishError.Some? ==>
              r == Failure("Failed to load fish: " + replies.fishError.value)
    ensures user.Some? && |Matching(store.setups, id, user.value)| == 1 && replies.fishError.None? && replies.coralError.Some? ==>
              r == Failure("Failed to load corals: " + replies.coralError.value)
    ensures r.Success? ==> r.value.row in store.setups && r.value.row.id == id && r.value.row.owner == user.value
    ensures r.Success? ==> r.value.fish == LinesFor(store.fish, id) && r.value.corals == LinesFor(store.corals, id)
    ensures r.Success? ==> (r.value.analysis.Some? <==> !replies.analysisError && AnalysesFor(store.analyses, id) != [])
    ensures r.Success? && !replies.analysisError ==> r.value.analysis == ReadAnalysis(AnalysesFor(store.analyses, id))
  {
    if user.None? then Failure(LoginToView)
    else
      var matches := Matching(store.setups, id, user.value);
      if |matches| != 1 then Failure(NoSingleRow)
      else if replies.fishError.Some? then Failure("Failed to load fish: " + replies.fishError.value)
      else if replies.coralError.Some? then Failure("Failed to load corals: " + replies.coralError.value)
      else
        var analysis := if replies.analysisError then None else ReadAnalysis(AnalysesFor(store.analyses, id));
        Success(SavedSetup(matches[0], LinesFor(store.fish, id), LinesFor(store.corals, id), analysis))
  }

  /** The setup rows with this id owned by `u`, in table order. */
  function Matching(rows: seq<SetupRow>, id: string, u: UserId): (r: seq<SetupRow>)
    ensures forall k :: 0 <= k < |r| ==> r[k] in rows && r[k].id == id && r[k].owner == u
    ensures forall x :: x in rows && x.id == id && x.owner == u ==> x in r
    decreases |rows|
  {
    if |rows| == 0 then []
    else (if rows[0].id == id && rows[0].owner == u then [rows[0]] else []) + Matching(rows[1..], id, u)
  }

  /** `savedToTankSetup` (and `convertToTankSetup` of the saved-setups page, which is the same
      mapping): fields copied, entries mapped back, falsy readings dropped. */
  function FromSaved(saved: SavedSetup): (r: TankSetup)
    ensures r.volume == saved.row.volume && r.lighting == saved.row.lighting && r.filtration == saved.row.filtration
    ensures r.hasProteinSkimmer == saved.row.hasProteinSkimmer && r.hasHeater == saved.row.hasHeater
    ensures r.hasWavemaker == saved.row.hasWavemaker
    ensures |r.fish| == |saved.fish| && forall i :: 0 <= i < |saved.fish| ==> r.fish[i].species == saved.fish[i].speciesId && r.fish[i].quantity == saved.fish[i].quantity
    ensures |r.corals| == |saved.corals| && forall i :: 0 <= i < |saved.corals| ==> r.corals[i].species == saved.corals[i].speciesId && r.corals[i].quantity == saved.corals[i].quantity
    ensures Entered(saved.row.waterPh) ==> r.waterParams.ph == saved.row.waterPh
    ensures !Entered(saved.row.waterPh) ==> r.waterParams.ph.None?
    ensures Entered(saved.row.waterSalinity) ==> r.waterParams.salinity == saved.row.waterSalinity
    ensures !Entered(saved.row.waterSalinity) ==> r.waterParams.salinity.None?
    ensures Entered(saved.row.waterTemperature) ==> r.waterParams.temperature == saved.row.waterTemperature
    ensures !Entered(saved.row.waterTemperature) ==> r.waterParams.temperature.None?
  {
    TankSetup(saved.row.volume, saved.row.lighting, saved.row.filtration,
              EntriesOf(saved.fish), EntriesOf(saved.corals),
              saved.row.hasProteinSkimmer, saved.row.hasHeater, saved.row.hasWavemaker,
              WaterParams(Truthful(saved.row.waterPh), Truthful(saved.row.waterSalinity), Truthful(saved.row.waterTemperature)))
  }

  /** The outcomes of the writes an operation awaits. `analysisInsert` is whether the analysis
      row was written; its failure is only logged. `cleanup` is whether the delete of the setup
      row after a failed fish or coral insert succeeds; its outcome is not looked at. `readBack`
      is what the final read-back answers. `oldFishDeleted` and `oldCoralsDeleted` are
      whether an update's deletes of the old fish and coral rows succeed; their errors are
      not looked at either. */
  datatype WriteEnv = WriteEnv(setupWrite: Outcome<string>, fishInsert: Outcome<string>,
                               coralInsert: Outcome<string>, analysisInsert: bool,
                               cleanup: bool, readBack: ReadEnv,
                               oldFishDeleted: bool, oldCoralsDeleted: bool)

  /** The fish and coral inserts a save or update makes all succeed. */
  predicate ChildrenPass(s: TankSetup, env: WriteEnv) {
    (s.fish == [] || env.fishInsert.Pass?) && (s.corals == [] || env.coralInsert.Pass?)
  }

  /** No row of any table refers to `id` yet: the database hands out fresh ids. */
  predicate Fresh(store: Store, id: string) {
    (forall k :: 0 <= k < |store.setups| ==> store.setups[k].id != id)
    && (forall k :: 0 <= k < |store.fish| ==> store.fish[k].setupId != id)
    && (forall k :: 0 <= k < |store.corals| ==> store.corals[k].setupId != id)
    && (forall k :: 0 <= k < |store.analyses| ==> store.analyses[k].setupId != id)
  }

  /** `.delete().eq('id', id)`, and with an owner `.eq('user_id', owner)` as well. */
  function DeleteRows(rows: seq<SetupRow>, id: string, owner: Option<UserId>): seq<SetupRow>
    decreases |rows|
  {
    if |rows| == 0 then []
    else
      (if rows[0].id == id && (owner.None? || rows[0].owner == owner.value) then [] else [rows[0]])
      + DeleteRows(rows[1..], id, owner)
  }

  /** The rows left by a delete are exactly the rows that do not match it. */
  lemma {:induction false} DeleteRowsMembers(rows: seq<SetupRow>, id: string, owner: Option<UserId>)
    ensures forall x :: x in DeleteRows(rows, id, owner) <==> x in rows && !(x.id == id && (owner.None? || x.owner == owner.value))
    decreases |rows|
  {
    if |rows| > 0 {
      DeleteRowsMembers(rows[1..], id, owner);
      assert rows == [rows[0]] + rows[1..];
    }
  }

  /** Deleting an id no row has changes nothing. */
  lemma {:induction false} DeleteAbsent(rows: seq<SetupRow>, id: string, owner: Option<UserId>)
    requires forall k :: 0 <= k < |rows| ==> rows[k].id != id
    ensures DeleteRows(rows, id, owner) == rows
    decreases |rows|
  {
    if |rows| > 0 {
      DeleteAbsent(rows[1..], id, owner);
      assert [rows[0]] + rows[1..] == rows;
    }
  }

  /** Deleting the row just appended restores the table it was appended to. */
  lemma {:induction false} DeleteLastAppended(rows: seq<SetupRow>, x: SetupRow)
    requires forall k :: 0 <= k < |rows| ==> rows[k].id != x.id
    ensures DeleteRows(rows + [x], x.id, None) == rows
    decreases |rows|
  {
    var t := rows + [x];
    if |rows| == 0 {
      assert t == [x] && t[1..] == [];
      assert DeleteRows(t, x.id, None) == [] + DeleteRows(t[1..], x.id, None);
    } else {
      assert t[0] == rows[0] && t[1..] == rows[1..] + [x];
      DeleteLastAppended(rows[1..], x);
      assert DeleteRows(t, x.id, None) == [rows[0]] + DeleteRows(t[1..], x.id, None);
      assert [rows[0]] + rows[1..] == rows;
    }
  }

  /** The analysis row a save writes, if any. */
  function AnalysisRowFor(id: string, a: AnalysisResult, now: int): (r: AnalysisRow)
    ensures r.setupId == id && r.score == a.score && r.createdAt == now
    ensures r.summary == FirstText(a.summary, a.result) && r.breakdown == PresentJson(a.breakdown)
  {
    AnalysisRow(id, a.score, FirstText(a.summary, a.result), PresentJson(a.breakdown), now)
  }

  /** The inserts of fish, corals and the analysis once the setup row is in place: each list
      is written only when non-empty, and the first failing list stops the operation with its
      message. The store is returned as it stands at that point. */
  function WriteChildren(store: Store, id: string, s: TankSetup, analysis: Option<AnalysisResult>,
                         env: WriteEnv, now: int, fishFailed: string, coralsFailed: string): (r: (Outcome<string>, Store))
    ensures r.0.Pass? ==> r.1.fish == store.fish + Tag(id, LinesOf(s.fish))
    ensures r.0.Pass? ==> r.1.corals == store.corals + Tag(id, LinesOf(s.corals))
    ensures r.1.setups == store.setups
  {
    if s.fish != [] && env.fishInsert.Fail? then (Fail(fishFailed + env.fishInsert.error), store)
    else
      var s1 := store.(fish := store.fish + Tag(id, LinesOf(s.fish)));
      if s.corals != [] && env.coralInsert.Fail? then (Fail(coralsFailed + env.coralInsert.error), s1)
      else
        var s2 := s1.(corals := s1.corals + Tag(id, LinesOf(s.corals)));
        if analysis.Some? && env.analysisInsert then
          (Pass, s2.(analyses := s2.analyses + [AnalysisRowFor(id, analysis.value, now)]))
        else (Pass, s2)
  }

  /** `saveTankSetup`: the setup row, then its fish, corals and analysis; a failing fish or coral
      insert deletes the setup row again. On success the saved setup is read back. */
  function Save(user: Option<UserId>, s: TankSetup, name: string, analysis: Option<AnalysisResult>,
                env: WriteEnv, newId: string, now: int, store: Store): (r: (Result<SavedSetup, string>, Store))
    requires Fresh(store, newId)
    ensures user.None? ==> r == (Failure(LoginToSave), store)
    ensures user.Some? && env.setupWrite.Fail? ==> r == (Failure(env.setupWrite.error), store)
    ensures r.1.setups == store.setups || (user.Some? && r.1.setups == store.setups + [RowFor(newId, user.value, name, s)])
    ensures user.Some? && env.setupWrite.Pass? ==>
              (r.1.setups == store.setups + [RowFor(newId, user.value, name, s)] <==> ChildrenPass(s, env) || !env.cleanup)
    ensures user.Some? && env.setupWrite.Pass? && !ChildrenPass(s, env) ==> r.0.Failure?
    ensures user.Some? && env.setupWrite.Pass? && ChildrenPass(s, env) ==> r.0 == Load(r.1, user, newId, env.readBack)
    ensures user.Some? && s.fish != [] && env.setupWrite.Pass? && env.fishInsert.Fail? && env.cleanup ==>
              r == (Failure("Failed to save fish: " + env.fishInsert.error), store)
  {
    if user.None? then (Failure(LoginToSave), store)
    else if env.setupWrite.Fail? then (Failure(env.setupWrite.error), store)
    else
      var row := RowFor(newId, user.value, name, s);
      var withRow := store.(setups := store.setups + [row]);
      var (out, written) := WriteChildren(withRow, newId, s, analysis, env, now, "Failed to save fish: ", "Failed to save corals: ");
      if out.Fail? then
        DeleteLastAppended(store.setups, row);
        // the clean-up delete's outcome is not checked
        (Failure(out.error), if env.cleanup then written.(setups := DeleteRows(written.setups, newId, None)) else written)
      else
        MatchingFresh(store.setups, row, user.value);
        (Load(written, user, newId, env.readBack), written)
  }

  /** The store a save leaves when its setup, fish and coral writes pass. */
  function Written(u: UserId, s: TankSetup, name: string, analysis: Option<AnalysisResult>,
                   env: WriteEnv, newId: string, now: int, store: Store): Store
  {
    WriteChildren(store.(setups := store.setups + [RowFor(newId, u, name, s)]), newId, s, analysis, env, now,
                  "Failed to save fish: ", "Failed to save corals: ").1
  }

  /** A save whose writes pass answers with what reading the new id back gives. */
  lemma SaveReadsBack(u: UserId, s: TankSetup, name: string, analysis: Option<AnalysisResult>,
                      env: WriteEnv, newId: string, now: int, store: Store)
    requires Fresh(store, newId)
    requires env.setupWrite.Pass? && env.fishInsert.Pass? && env.coralInsert.Pass?
    ensures var w := Written(u, s, name, analysis, env, newId, now, store);
            Save(Some(u), s, name, analysis, env, newId, now, store) == (Load(w, Some(u), newId, env.readBack), w)
  {
  }

  /** Reading a freshly saved setup back finds its row, exactly its fish and corals, and the
      newest of its analyses. */
  lemma WrittenLoads(u: UserId, s: TankSetup, name: string, analysis: Option<AnalysisResult>,
                     env: WriteEnv, newId: string, now: int, store: Store)
    requires Fresh(store, newId)
    requires env.setupWrite.Pass? && env.fishInsert.Pass? && env.coralInsert.Pass?
    ensures var w := Written(u, s, name, analysis, env, newId, now, store);
            Load(w, Some(u), newId, ReadsPass) == Success(SavedSetup(RowFor(newId, u, name, s), LinesOf(s.fish), LinesOf(s.corals),
                                                          ReadAnalysis(AnalysesFor(w.analyses, newId))))
  {
    var row := RowFor(newId, u, name, s);
    var w := Written(u, s, name, analysis, env, newId, now, store);
    assert w.setups == store.setups + [row];
    assert w.fish == store.fish + Tag(newId, LinesOf(s.fish));
    assert w.corals == store.corals + Tag(newId, LinesOf(s.corals));
    MatchingFresh(store.setups, row, u);
    LinesForAppend(store.fish, Tag(newId, LinesOf(s.fish)), newId);
    LinesForTag(newId, LinesOf(s.fish));
    LinesForAbsent(store.fish, newId);
    LinesForAppend(store.corals, Tag(newId, LinesOf(s.corals)), newId);
    LinesForTag(newId, LinesOf(s.corals));
    LinesForAbsent(store.corals, newId);
    assert Matching(w.setups, newId, u) == [row];
    assert LinesFor(w.fish, newId) == [] + LinesOf(s.fish) == LinesOf(s.fish);
    assert LinesFor(w.corals, newId) == [] + LinesOf(s.corals) == LinesOf(s.corals);
  }

  /** No row of a table with no row for `id` is read for it. */
  lemma LinesForAbsent(rows: seq<LineRow>, id: string)
    requires forall k :: 0 <= k < |rows| ==> rows[k].setupId != id
    ensures LinesFor(rows, id) == []
  {
  }

  /** A save that gets past the setup row and whose fish and coral inserts succeed reads back
      as the form's setup, except that zero readings come back as never entered; so the round
      trip is exact precisely when every reading is missing or non-zero. The analysis is
      optional and its failure does not matter. */
  lemma SaveLoadRoundTrip(u: UserId, s: TankSetup, name: string, analysis: Option<AnalysisResult>,
                          env: WriteEnv, newId: string, now: int, store: Store)
    requires Fresh(store, newId)
    requires env.setupWrite.Pass? && env.fishInsert.Pass? && env.coralInsert.Pass?
    requires env.readBack.fishError.None? && env.readBack.coralError.None?
    ensures var r := Save(Some(u), s, name, analysis, env, newId, now, store);
            r.0.Success?
            && FromSaved(r.0.value) == s.(waterParams := WaterParams(Truthful(s.waterParams.ph),
                                               Truthful(s.waterParams.salinity), Truthful(s.waterParams.temperature)))
            && (FromSaved(r.0.value) == s <==> (s.waterParams.ph != Some(0.0) && s.waterParams.salinity != Some(0.0)
                                                 && s.waterParams.temperature != Some(0.0)))
  {
    SaveReadsBack(u, s, name, analysis, env, newId, now, store);
    WrittenLoads(u, s, name, analysis, env, newId, now, store);
    EntriesRoundTrip(s.fish);
    EntriesRoundTrip(s.corals);
  }

  /** Appending a row with a fresh id to a table makes it the only row with that id. */
  lemma {:induction false} MatchingFresh(rows: seq<SetupRow>, x: SetupRow, u: UserId)
    requires x.owner == u && forall k :: 0 <= k < |rows| ==> rows[k].id != x.id
    ensures Matching(rows + [x], x.id, u) == [x]
    decreases |rows|
  {
    if |rows| == 0 {
      assert Matching([x], x.id, u) == [x] + Matching([], x.id, u);
    } else {
      assert (rows + [x])[1..] == rows[1..] + [x];
      MatchingFresh(rows[1..], x, u);
    }
  }

  /** A saved analysis is the one read back with the setup: same score, and as summary the
      first non-empty one of its summary and result. */
  lemma SavedAnalysisReadBack(u: UserId, s: TankSetup, name: string, a: AnalysisResult,
                              env: WriteEnv, newId: string, now: int, store: Store)
    requires Fresh(store, newId)
    requires env.setupWrite.Pass? && env.fishInsert.Pass? && env.coralInsert.Pass? && env.analysisInsert
    requires env.readBack == ReadsPass
    ensures var r := Save(Some(u), s, name, Some(a), env, newId, now, store);
            r.0.Success? && r.0.value.analysis == Some(AnalysisResult(a.score, FirstText(a.summary, a.result), None, PresentJson(a.breakdown)))
  {
    SaveReadsBack(u, s, name, Some(a), env, newId, now, store);
    WrittenLoads(u, s, name, Some(a), env, newId, now, store);
    var w := Written(u, s, name, Some(a), env, newId, now, store);
    var x := AnalysisRowFor(newId, a, now);
    assert w.analyses == store.analyses + [x];
    AnalysesForFresh(store.analyses, x);
  }

  /** The only analysis of a fresh setup is the one appended for it. */
  lemma {:induction false} AnalysesForFresh(rows: seq<AnalysisRow>, x: AnalysisRow)
    requires forall k :: 0 <= k < |rows| ==> rows[k].setupId != x.setupId
    ensures AnalysesFor(rows + [x], x.setupId) == [x]
    decreases |rows|
  {
    if |rows| == 0 {
      assert AnalysesFor([x], x.setupId) == [x] + AnalysesFor([], x.setupId);
    } else {
      assert (rows + [x])[1..] == rows[1..] + [x];
      AnalysesForFresh(rows[1..], x);
    }
  }

  /** A failing coral insert deletes the setup row again but not the fish rows already
      written for it. */
  lemma SaveCoralFailureKeepsFish(u: UserId, s: TankSetup, name: string, analysis: Option<AnalysisResult>,
                                  env: WriteEnv, newId: string, now: int, store: Store)
    requires Fresh(store, newId)
    requires env.setupWrite.Pass? && env.fishInsert.Pass? && s.corals != [] && env.coralInsert.Fail? && env.cleanup
    ensures var r := Save(Some(u), s, name, analysis, env, newId, now, store);
            r.0 == Failure("Failed to save corals: " + env.coralInsert.error)
            && r.1.setups == store.setups && LinesFor(r.1.fish, newId) == LinesOf(s.fish)
  {
    LinesForAppend(store.fish, Tag(newId, LinesOf(s.fish)), newId);
    LinesForTag(newId, LinesOf(s.fish));
  }

  /** When the clean-up delete after a failed fish or coral insert fails too, the setup row
      stays although the save reports the failure. */
  lemma SaveCleanupFailureKeepsRow(u: UserId, s: TankSetup, name: string, analysis: Option<AnalysisResult>,
                                   env: WriteEnv, newId: string, now: int, store: Store)
    requires Fresh(store, newId)
    requires env.setupWrite.Pass? && !ChildrenPass(s, env) && !env.cleanup
    ensures var r := Save(Some(u), s, name, analysis, env, newId, now, store);
            r.0.Failure? && Matching(r.1.setups, newId, u) == [RowFor(newId, u, name, s)]
  {
    MatchingFresh(store.setups, RowFor(newId, u, name, s), u);
  }

  /** The row update of `updateTankSetup`: the caller's row with this id gets the form's fields
      and the new name; its id and owner stay. */
  function UpdateRows(rows: seq<SetupRow>, id: string, u: UserId, name: string, s: TankSetup): (r: seq<SetupRow>)
    ensures |r| == |rows|
    ensures forall k :: 0 <= k < |rows| ==> r[k] == (if rows[k].id == id && rows[k].owner == u then RowFor(id, u, name, s) else rows[k])
  {
    seq(|rows|, k requires 0 <= k < |rows| => if rows[k].id == id && rows[k].owner == u then RowFor(id, u, name, s) else rows[k])
  }

  /** `.delete().eq('tank_setup_id', id)` on a child table. */
  function DeleteLines(rows: seq<LineRow>, id: string): (r: seq<LineRow>)
    ensures forall x :: x in r <==> x in rows && x.setupId != id
    decreases |rows|
  {
    if |rows| == 0 then []
    else (if rows[0].setupId == id then [] else [rows[0]]) + DeleteLines(rows[1..], id)
  }

  /** `updateTankSetup`: the row update, then the old fish and corals are deleted and the new
      ones inserted. A failing delete leaves the old rows in place unnoticed; nothing is undone
      when an insert fails. */
  function Update(user: Option<UserId>, id: string, s: TankSetup, name: string, analysis: Option<AnalysisResult>,
                  env: WriteEnv, now: int, store: Store): (r: (Result<SavedSetup, string>, Store))
    ensures user.None? ==> r == (Failure(LoginToUpdate), store)
    ensures user.Some? && env.setupWrite.Fail? ==> r == (Failure(env.setupWrite.error), store)
    ensures user.Some? && env.setupWrite.Pass? ==> r.1.setups == UpdateRows(store.setups, id, user.value, name, s)
    ensures user.Some? && env.setupWrite.Pass? && s.fish != [] && env.fishInsert.Fail? ==>
              r.0 == Failure("Failed to update fish: " + env.fishInsert.error)
    ensures user.Some? && env.setupWrite.Pass? && (s.fish == [] || env.fishInsert.Pass?) && s.corals != [] && env.coralInsert.Fail? ==>
              r.0 == Failure("Failed to update corals: " + env.coralInsert.error)
    ensures user.Some? && env.setupWrite.Pass? && ChildrenPass(s, env) ==> r.0 == Load(r.1, user, id, env.readBack)
  {
    if user.None? then (Failure(LoginToUpdate), store)
    else if env.setupWrite.Fail? then (Failure(env.setupWrite.error), store)
    else
      var updated := store.(setups := UpdateRows(store.setups, id, user.value, name, s),
                            fish := if env.oldFishDeleted then DeleteLines(store.fish, id) else store.fish,
                            corals := if env.oldCoralsDeleted then DeleteLines(store.corals, id) else store.corals);
      var (out, written) := WriteChildren(updated, id, s, analysis, env, now, "Failed to update fish: ", "Failed to update corals: ");
      if out.Fail? then (Failure(out.error), written)
      else (Load(written, user, id, env.readBack), written)
  }

  /** When the new fish cannot be inserted, the setup is left with no fish at all: the old
      ones were deleted first and are not restored. */
  lemma UpdateFishFailureLosesFish(u: UserId, id: string, s: TankSetup, name: string, analysis: Option<AnalysisResult>,
                                   env: WriteEnv, now: int, store: Store)
    requires env.setupWrite.Pass? && s.fish != [] && env.fishInsert.Fail? && env.oldFishDeleted
    ensures var r := Update(Some(u), id, s, name, analysis, env, now, store);
            r.0 == Failure("Failed to update fish: " + env.fishInsert.error) && LinesFor(r.1.fish, id) == []
  {
    var r := Update(Some(u), id, s, name, analysis, env, now, store);
    forall k | 0 <= k < |r.1.fish| ensures r.1.fish[k].setupId != id {
      assert r.1.fish[k] in DeleteLines(store.fish, id);
    }
  }

  /** A successful update reads back exactly the new fish and corals. */
  lemma UpdateReplacesLines(u: UserId, id: string, s: TankSetup, name: string, analysis: Option<AnalysisResult>,
                            env: WriteEnv, now: int, store: Store)
    requires env.setupWrite.Pass? && env.fishInsert.Pass? && env.coralInsert.Pass?
    requires env.oldFishDeleted && env.oldCoralsDeleted
    ensures var r := Update(Some(u), id, s, name, analysis, env, now, store);
            r.0.Success? ==> r.0.value.fish == LinesOf(s.fish) && r.0.value.corals == LinesOf(s.corals)
  {
    var r := Update(Some(u), id, s, name, analysis, env, now, store);
    var updated := store.(setups := UpdateRows(store.setups, id, u, name, s),
                          fish := DeleteLines(store.fish, id), corals := DeleteLines(store.corals, id));
    var written := WriteChildren(updated, id, s, analysis, env, now, "Failed to update fish: ", "Failed to update corals: ").1;
    assert r == (Load(written, Some(u), id, env.readBack), written);
    ReplacedLinesRead(store.fish, id, LinesOf(s.fish));
    ReplacedLinesRead(store.corals, id, LinesOf(s.corals));
  }

  /** When the delete of the old fish fails unnoticed, a successful update reads back the old
      fish followed by the new ones. */
  lemma UpdateKeepsUndeletedFish(u: UserId, id: string, s: TankSetup, name: string, analysis: Option<AnalysisResult>,
                                 env: WriteEnv, now: int, store: Store)
    requires env.setupWrite.Pass? && env.fishInsert.Pass? && env.coralInsert.Pass? && !env.oldFishDeleted
    ensures var r := Update(Some(u), id, s, name, analysis, env, now, store);
            r.0.Success? ==> r.0.value.fish == LinesFor(store.fish, id) + LinesOf(s.fish)
  {
    LinesForAppend(store.fish, Tag(id, LinesOf(s.fish)), id);
    LinesForTag(id, LinesOf(s.fish));
  }

  /** After the rows of `id` are deleted and a batch is inserted for it, reading `id` gives
      the batch. */
  lemma ReplacedLinesRead(rows: seq<LineRow>, id: string, lines: seq<Line>)
    ensures LinesFor(DeleteLines(rows, id) + Tag(id, lines), id) == lines
  {
    var d := DeleteLines(rows, id);
    forall k | 0 <= k < |d| ensures d[k].setupId != id {
      assert d[k] in d;
    }
    LinesForAbsent(d, id);
    LinesForAppend(d, Tag(id, lines), id);
    LinesForTag(id, lines);
    assert [] + lines == lines;
  }

  /** `deleteTankSetup`: the caller's row with this id is removed; other rows stay. */
  function Delete(user: Option<UserId>, id: string, deleteError: Option<string>, store: Store): (r: (Outcome<string>, Store))
    ensures user.None? ==> r == (Fail(LoginToDelete), store)
    ensures user.Some? && deleteError.Some? ==> r == (Fail(deleteError.value), store)
    ensures forall x :: x in r.1.setups <==> x in store.setups && !(r.0.Pass? && x.id == id && x.owner == user.value)
  {
    if user.None? then (Fail(LoginToDelete), store)
    else if deleteError.Some? then (Fail(deleteError.value), store)
    else
      DeleteRowsMembers(store.setups, id, user);
      (Pass, store.(setups := DeleteRows(store.setups, id, user)))
  }

  /** `getUserTankSetups`: each of the caller's setups with its fish, corals and newest
      analysis. */
  function List(user: Option<UserId>, listError: Option<string>, store: Store): (r: Result<seq<SavedSetup>, string>)
    ensures user.None? ==> r == Failure(LoginToView)
    ensures user.Some? && listError.Some? ==> r == Failure(listError.value)
    ensures r.Success? <==> user.Some? && listError.None?
    ensures r.Success? ==>
              var owned := OwnedBy(store.setups, user.value);
              && |r.value| == |owned|
              && (forall k :: 0 <= k < |owned| ==>
                    && r.value[k].row == owned[k]
                    && r.value[k].fish == LinesFor(store.fish, owned[k].id)
                    && r.value[k].corals == LinesFor(store.corals, owned[k].id)
                    && r.value[k].analysis == ReadAnalysis(AnalysesFor(store.analyses, owned[k].id)))
    ensures r.Success? ==> forall x :: x in store.setups && x.owner == user.value ==>
              exists k :: 0 <= k < |r.value| && r.value[k].row == x
  {
    if user.None? then Failure(LoginToView)
    else if listError.Some? then Failure(listError.value)
    else
      var owned := OwnedBy(store.setups, user.value);
      var listed := seq(|owned|, k requires 0 <= k < |owned| => WithChildren(store, owned[k]));
      assert forall x :: x in owned ==> exists k :: 0 <= k < |owned| && owned[k] == x && listed[k].row == x;
      Success(listed)
  }

  /** A setup row as the listing embeds it: with its fish, its corals and its newest analysis. */
  function WithChildren(store: Store, x: SetupRow): SavedSetup {
    SavedSetup(x, LinesFor(store.fish, x.id), LinesFor(store.corals, x.id), ReadAnalysis(AnalysesFor(store.analyses, x.id)))
  }

  /** Listing and loading agree: a listed setup whose id is the caller's only row with that id
      is what `getTankSetup` answers for it when its reads succeed. */
  lemma ListAgreesWithLoad(u: UserId, store: Store, k: nat)
    requires k < |OwnedBy(store.setups, u)|
    requires |Matching(store.setups, OwnedBy(store.setups, u)[k].id, u)| == 1
    ensures var l := List(Some(u), None, store);
            var x := OwnedBy(store.setups, u)[k];
            l.Success? && k < |l.value| && Load(store, Some(u), x.id, ReadsPass) == Success(l.value[k])
  {
    var x := OwnedBy(store.setups, u)[k];
    var m := Matching(store.setups, x.id, u);
    assert x in store.setups;
    assert x in m;
    assert m[0] == x;
  }

  /** The rows owned by `u`, in table order. */
  function OwnedBy(rows: seq<SetupRow>, u: UserId): (r: seq<SetupRow>)
    ensures forall k :: 0 <= k < |r| ==> r[k] in rows && r[k].owner == u
    ensures forall x :: x in rows && x.owner == u ==> x in r
    decreases |rows|
  {
    if |rows| == 0 then []
    else (if rows[0].owner == u then [rows[0]] else []) + OwnedBy(rows[1..], u)
  }
}
