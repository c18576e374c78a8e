/** The farm records of v1/src/handlers/farm.rs and `get_farms`, which rebuilds
    the nested Farm -> Rig -> GPU structure from the rows of one LEFT JOIN scan.

    `Grouped` states declaratively what the aggregation must produce: one farm
    per distinct farm id in order of first occurrence, named after its first
    row; within it one rig per distinct non-null rig id in order of first
    occurrence, named after its first row; within that one GPU per row that
    carries a GPU id, in row order. `GetFarms` is the one-pass loop of the
    handler, proved to produce exactly `Grouped`. */
module Farms {
  import opened Values
  import opened Rigs
  import opened Grouping

  /** A farm together with its rigs. */
  datatype Farm = Farm(id: Id, name: string, location: Option<string>, rigs: seq<Rig>)

  /** One row of `farm LEFT JOIN rig ON farm.id = rig.farm_id LEFT JOIN gpu ON rig.id = gpu.rig_id`:
      the farm columns are never null, the rig and GPU columns may be. */
  datatype JoinRow = JoinRow(
    farmId: Id, farmName: string, farmLocation: Option<string>,
    rigId: Option<Id>, rigName: Option<string>, rigLocation: Option<string>,
    gpuId: Option<Id>, gpuName: Option<string>, gpuTemp: Option<real>, gpuWatt: Option<real>)

  // ---------------------------------------------------------------------
  // Nodes built from a single row, as the loop body of `get_farms` builds them

  /** The GPU a row describes, attached to rig `rigId`; null name and readings default. */
  function GpuOfRow(row: JoinRow, rigId: Id): Gpu
    requires row.gpuId.Some?
  {
    Gpu(row.gpuId.value, OrEmpty(row.gpuName), OrZero(row.gpuTemp), OrZero(row.gpuWatt), Some(rigId))
  }

  /** The GPUs a row contributes to rig `rigId`: one if its GPU id is not null. */
  function GpusOfRow(row: JoinRow, rigId: Id): seq<Gpu>
  {
    if row.gpuId.Some? then [GpuOfRow(row, rigId)] else []
  }

  /** The rig created on the first row that carries its id. */
  function RigOfRow(row: JoinRow): Rig
    requires row.rigId.Some?
  {
    Rig(row.rigId.value, OrEmpty(row.rigName), "", row.rigLocation, Some(row.farmId),
        GpusOfRow(row, row.rigId.value))
  }

  /** The farm created on the first row that carries its id. */
  function FarmOfRow(row: JoinRow): Farm
  {
    Farm(row.farmId, row.farmName, row.farmLocation, if row.rigId.Some? then [RigOfRow(row)] else [])
  }

  // ---------------------------------------------------------------------
  // Columns and groups of the rows

  function Init(rows: seq<JoinRow>): seq<JoinRow>
    requires rows != []
  {
    rows[..|rows| - 1]
  }

  function Last(rows: seq<JoinRow>): JoinRow
    requires rows != []
  {
    rows[|rows| - 1]
  }

  /** The farm id of every row, in row order. */
  function FarmColumn(rows: seq<JoinRow>): seq<Id>
  {
    if rows == [] then [] else FarmColumn(Init(rows)) + [Last(rows).farmId]
  }

  /** The non-null rig ids of the rows, in row order. */
  function RigColumn(rows: seq<JoinRow>): seq<Id>
  {
    if rows == [] then []
    else RigColumn(Init(rows)) + (if Last(rows).rigId.Some? then [Last(rows).rigId.value] else [])
  }

  /** The rows whose farm id is `farmId`, in row order. */
  function RowsOfFarm(rows: seq<JoinRow>, farmId: Id): seq<JoinRow>
  {
    if rows == [] then []
    else RowsOfFarm(Init(rows), farmId) + (if Last(rows).farmId == farmId then [Last(rows)] else [])
  }

  /** The rows whose rig id is `rigId`, in row order. */
  function RowsOfRig(rows: seq<JoinRow>, rigId: Id): seq<JoinRow>
  {
    if rows == [] then []
    else RowsOfRig(Init(rows), rigId) + (if Last(rows).rigId == Some(rigId) then [Last(rows)] else [])
  }

  /** The GPUs the rows contribute to rig `rigId`, in row order. */
  function GpusOf(rows: seq<JoinRow>, rigId: Id): seq<Gpu>
  {
    if rows == [] then [] else GpusOf(Init(rows), rigId) + GpusOfRow(Last(rows), rigId)
  }

  lemma SnocColumns(rows: seq<JoinRow>, row: JoinRow)
    ensures FarmColumn(rows + [row]) == FarmColumn(rows) + [row.farmId]
    ensures RigColumn(rows + [row]) == RigColumn(rows) + (if row.rigId.Some? then [row.rigId.value] else [])
  {
    assert Init(rows + [row]) == rows;
  }

  lemma SnocFarmRows(rows: seq<JoinRow>, row: JoinRow, farmId: Id)
    ensures RowsOfFarm(rows + [row], farmId) == RowsOfFarm(rows, farmId) + (if row.farmId == farmId then [row] else [])
  {
    assert Init(rows + [row]) == rows;
  }

  lemma SnocRigRows(rows: seq<JoinRow>, row: JoinRow, rigId: Id)
    ensures RowsOfRig(rows + [row], rigId) == RowsOfRig(rows, rigId) + (if row.rigId == Some(rigId) then [row] else [])
  {
    assert Init(rows + [row]) == rows;
  }

  lemma SnocGpus(rows: seq<JoinRow>, row: JoinRow, rigId: Id)
    ensures GpusOf(rows + [row], rigId) == GpusOf(rows, rigId) + GpusOfRow(row, rigId)
  {
    assert Init(rows + [row]) == rows;
  }

  /** A farm id occurs in the rows exactly when it has rows. */
  lemma {:induction false} FarmColumnHasRows(rows: seq<JoinRow>, farmId: Id)
    ensures farmId in FarmColumn(rows) <==> RowsOfFarm(rows, farmId) != []
  {
    if rows != [] {
      FarmColumnHasRows(Init(rows), farmId);
      assert rows == Init(rows) + [Last(rows)];
      SnocColumns(Init(rows), Last(rows));
      SnocFarmRows(Init(rows), Last(rows), farmId);
    }
  }

  /** A rig id occurs in the rows exactly when it has rows. */
  lemma {:induction false} RigColumnHasRows(rows: seq<JoinRow>, rigId: Id)
    ensures rigId in RigColumn(rows) <==> RowsOfRig(rows, rigId) != []
  {
    if rows != [] {
      RigColumnHasRows(Init(rows), rigId);
      assert rows == Init(rows) + [Last(rows)];
      SnocColumns(Init(rows), Last(rows));
      SnocRigRows(Init(rows), Last(rows), rigId);
    }
  }

  /** The distinct farm ids, in order of first occurrence. */
  function FarmIds(rows: seq<JoinRow>): seq<Id>
  {
    Distinct(FarmColumn(rows))
  }

  /** The distinct non-null rig ids, in order of first occurrence. */
  function RigIds(rows: seq<JoinRow>): seq<Id>
  {
    Distinct(RigColumn(rows))
  }

  lemma FarmIdsHaveRows(rows: seq<JoinRow>)
    ensures forall farmId :: farmId in FarmIds(rows) ==> RowsOfFarm(rows, farmId) != []
  {
    forall farmId | farmId in FarmIds(rows) ensures RowsOfFarm(rows, farmId) != [] {
      DistinctMembers(FarmColumn(rows), farmId);
      FarmColumnHasRows(rows, farmId);
    }
  }

  lemma RigIdsHaveRows(rows: seq<JoinRow>)
    ensures forall rigId :: rigId in RigIds(rows) ==> RowsOfRig(rows, rigId) != []
  {
    forall rigId | rigId in RigIds(rows) ensures RowsOfRig(rows, rigId) != [] {
      DistinctMembers(RigColumn(rows), rigId);
      RigColumnHasRows(rows, rigId);
    }
  }

  // ---------------------------------------------------------------------
  // The specification of the aggregation

  /** The rig `rigId` of farm `farmId`, built from the rows `rr` that carry that
      rig id: name and location from the first of them, GPUs from all of them. */
  function RigNode(rr: seq<JoinRow>, farmId: Id, rigId: Id): Rig
    requires rr != []
  {
    Rig(rigId, OrEmpty(rr[0].rigName), "", rr[0].rigLocation, Some(farmId), GpusOf(rr, rigId))
  }

  /** The rigs of farm `farmId`, built from the rows `fr` of that farm. */
  function RigNodes(fr: seq<JoinRow>, farmId: Id): seq<Rig>
  {
    RigIdsHaveRows(fr);
    var ids := RigIds(fr);
    seq(|ids|, j requires 0 <= j < |ids| => RigNode(RowsOfRig(fr, ids[j]), farmId, ids[j]))
  }

  /** The farm `farmId`, built from its rows `fr`: name and location from the first. */
  function FarmNode(fr: seq<JoinRow>, farmId: Id): Farm
    requires fr != []
  {
    Farm(farmId, fr[0].farmName, fr[0].farmLocation, RigNodes(fr, farmId))
  }

  /** What the aggregation of `rows` must produce. */
  function Grouped(rows: seq<JoinRow>): seq<Farm>
  {
    FarmIdsHaveRows(rows);
    var ids := FarmIds(rows);
    seq(|ids|, k requires 0 <= k < |ids| => FarmNode(RowsOfFarm(rows, ids[k]), ids[k]))
  }

  lemma RigNodesAt(fr: seq<JoinRow>, farmId: Id, j: nat)
    requires j < |RigIds(fr)|
    ensures |RigNodes(fr, farmId)| == |RigIds(fr)|
    ensures RowsOfRig(fr, RigIds(fr)[j]) != []
    ensures RigNodes(fr, farmId)[j] == RigNode(RowsOfRig(fr, RigIds(fr)[j]), farmId, RigIds(fr)[j])
  {
    RigIdsHaveRows(fr);
  }

  lemma GroupedAt(rows: seq<JoinRow>, k: nat)
    requires k < |FarmIds(rows)|
    ensures |Grouped(rows)| == |FarmIds(rows)|
    ensures RowsOfFarm(rows, FarmIds(rows)[k]) != []
    ensures Grouped(rows)[k] == FarmNode(RowsOfFarm(rows, FarmIds(rows)[k]), FarmIds(rows)[k])
  {
    FarmIdsHaveRows(rows);
  }

  // ---------------------------------------------------------------------
  // How one more row changes the specification

  /** One more row keeps the farm ids seen so far, in place. */
  lemma FarmIdsSnoc(rows: seq<JoinRow>, row: JoinRow)
    ensures FarmIds(rows + [row]) ==
      if row.farmId in FarmIds(rows) then FarmIds(rows) else FarmIds(rows) + [row.farmId]
  {
    SnocColumns(rows, row);
    DistinctSnoc(FarmColumn(rows), row.farmId);
    assert FarmIds(rows + [row]) == Distinct(FarmColumn(rows) + [row.farmId]);
  }

  /** One more row keeps the rig ids seen so far, in place. */
  lemma RigIdsSnoc(fr: seq<JoinRow>, row: JoinRow)
    ensures RigIds(fr + [row]) ==
      if row.rigId.None? || row.rigId.value in RigIds(fr) then RigIds(fr) else RigIds(fr) + [row.rigId.value]
  {
    SnocColumns(fr, row);
    if row.rigId.Some? {
      DistinctSnoc(RigColumn(fr), row.rigId.value);
      assert RigIds(fr + [row]) == Distinct(RigColumn(fr) + [row.rigId.value]);
    } else {
      assert RigColumn(fr + [row]) == RigColumn(fr);
    }
  }

  /** One more row leaves every other farm of the result as it was. */
  lemma GroupedOtherFarm(rows: seq<JoinRow>, row: JoinRow, k: nat)
    requires k < |FarmIds(rows)| && FarmIds(rows)[k] != row.farmId
    ensures k < |Grouped(rows + [row])| && Grouped(rows + [row])[k] == Grouped(rows)[k]
  {
    var id := FarmIds(rows)[k];
    FarmIdsSnoc(rows, row);
    assert FarmIds(rows + [row])[k] == id;
    GroupedAt(rows + [row], k);
    GroupedAt(rows, k);
    SnocFarmRows(rows, row, id);
    assert RowsOfFarm(rows + [row], id) == RowsOfFarm(rows, id);
  }

  /** One more row leaves every other rig of a farm as it was. */
  lemma RigNodesOtherRig(fr: seq<JoinRow>, farmId: Id, row: JoinRow, j: nat)
    requires j < |RigIds(fr)| && Some(RigIds(fr)[j]) != row.rigId
    ensures j < |RigNodes(fr + [row], farmId)| && RigNodes(fr + [row], farmId)[j] == RigNodes(fr, farmId)[j]
  {
    var id := RigIds(fr)[j];
    RigIdsSnoc(fr, row);
    assert RigIds(fr + [row])[j] == id;
    RigNodesAt(fr + [row], farmId, j);
    RigNodesAt(fr, farmId, j);
    SnocRigRows(fr, row, id);
    assert RowsOfRig(fr + [row], id) == RowsOfRig(fr, id);
  }

  /** A row whose rig id is null adds no rig to an existing farm. */
  lemma RigNodesNullRig(fr: seq<JoinRow>, farmId: Id, row: JoinRow)
    requires row.rigId.None?
    ensures RigNodes(fr + [row], farmId) == RigNodes(fr, farmId)
  {
    var a, b := RigNodes(fr + [row], farmId), RigNodes(fr, farmId);
    RigIdsSnoc(fr, row);
    RigIdsHaveRows(fr);
    RigIdsHaveRows(fr + [row]);
    forall j | 0 <= j < |a| ensures a[j] == b[j] {
      RigNodesOtherRig(fr, farmId, row, j);
    }
  }

  /** The GPUs a single row contributes. */
  lemma SingleRowGpus(row: JoinRow, rigId: Id)
    ensures GpusOf([row], rigId) == GpusOfRow(row, rigId)
  {
    assert Init([row]) == [];
  }

  /** A row with a rig id not yet in the farm appends the rig it describes. */
  lemma RigNodesNewRig(fr: seq<JoinRow>, farmId: Id, row: JoinRow)
    requires row.farmId == farmId && row.rigId.Some?
    requires forall j :: 0 <= j < |RigNodes(fr, farmId)| ==> RigNodes(fr, farmId)[j].id != row.rigId.value
    ensures RigNodes(fr + [row], farmId) == RigNodes(fr, farmId) + [RigOfRow(row)]
  {
    var rigId := row.rigId.value;
    var ids := RigIds(fr);
    var a, b := RigNodes(fr + [row], farmId), RigNodes(fr, farmId);
    forall j | 0 <= j < |ids| ensures ids[j] != rigId {
      RigNodesAt(fr, farmId, j);
    }
    RigIdsSnoc(fr, row);
    assert RigIds(fr + [row]) == ids + [rigId];
    RigIdsHaveRows(fr);
    RigIdsHaveRows(fr + [row]);
    forall j | 0 <= j < |b| ensures a[j] == b[j] {
      RigNodesOtherRig(fr, farmId, row, j);
    }
    DistinctMembers(RigColumn(fr), rigId);
    RigColumnHasRows(fr, rigId);
    SnocRigRows(fr, row, rigId);
    assert RowsOfRig(fr + [row], rigId) == [row];
    SingleRowGpus(row, rigId);
    RigNodesAt(fr + [row], farmId, |b|);
    assert a[|b|] == RigOfRow(row);
    assert a == b + [RigOfRow(row)];
  }

  /** A row with a rig id already in the farm only appends the GPU it carries, if any. */
  lemma RigNodesExistingRig(fr: seq<JoinRow>, farmId: Id, row: JoinRow, j: nat)
    requires row.rigId.Some?
    requires j < |RigNodes(fr, farmId)| && RigNodes(fr, farmId)[j].id == row.rigId.value
    ensures RigNodes(fr + [row], farmId) == RigNodes(fr, farmId)[j :=
      RigNodes(fr, farmId)[j].(gpus := RigNodes(fr, farmId)[j].gpus + GpusOfRow(row, row.rigId.value))]
  {
    var rigId := row.rigId.value;
    var ids := RigIds(fr);
    var a, b := RigNodes(fr + [row], farmId), RigNodes(fr, farmId);
    var c := b[j := b[j].(gpus := b[j].gpus + GpusOfRow(row, rigId))];
    RigNodesAt(fr, farmId, j);
    assert ids[j] == rigId;
    RigIdsSnoc(fr, row);
    assert RigIds(fr + [row]) == ids;
    RigIdsHaveRows(fr);
    RigIdsHaveRows(fr + [row]);
    DistinctNoDuplicates(RigColumn(fr));
    forall i | 0 <= i < |a| && i != j ensures a[i] == c[i] {
      assert ids[i] != rigId;
      RigNodesOtherRig(fr, farmId, row, i);
    }
    RigNodesAt(fr + [row], farmId, j);
    var rr := RowsOfRig(fr, rigId);
    SnocRigRows(fr, row, rigId);
    SnocGpus(rr, row, rigId);
    assert (rr + [row])[0] == rr[0];
    assert a[j] == c[j];
    assert a == c;
  }

  /** A farm seen on a single row is exactly the farm that row creates. */
  lemma SingleRowFarm(row: JoinRow)
    ensures FarmNode([row], row.farmId) == FarmOfRow(row)
  {
    var e: seq<JoinRow> := [];
    assert e + [row] == [row];
    assert RigNodes(e, row.farmId) == [];
    if row.rigId.Some? {
      RigNodesNewRig(e, row.farmId, row);
    } else {
      RigNodesNullRig(e, row.farmId, row);
    }
  }

  /** The first row of a farm is, so far, its only row. */
  lemma FirstRowOfFarm(rows: seq<JoinRow>, row: JoinRow)
    requires row.farmId !in FarmIds(rows)
    ensures RowsOfFarm(rows + [row], row.farmId) == [row]
  {
    DistinctMembers(FarmColumn(rows), row.farmId);
    FarmColumnHasRows(rows, row.farmId);
    SnocFarmRows(rows, row, row.farmId);
  }

  /** A row of a farm not yet seen appends the farm it describes. */
  lemma GroupedNewFarm(rows: seq<JoinRow>, row: JoinRow)
    requires forall k :: 0 <= k < |Grouped(rows)| ==> Grouped(rows)[k].id != row.farmId
    ensures Grouped(rows + [row]) == Grouped(rows) + [FarmOfRow(row)]
  {
    var farmId := row.farmId;
    var ids := FarmIds(rows);
    var a, b := Grouped(rows + [row]), Grouped(rows);
    forall k | 0 <= k < |ids| ensures ids[k] != farmId {
      GroupedAt(rows, k);
    }
    FarmIdsSnoc(rows, row);
    assert FarmIds(rows + [row]) == ids + [farmId];
    FarmIdsHaveRows(rows);
    FarmIdsHaveRows(rows + [row]);
    forall k | 0 <= k < |b| ensures a[k] == b[k] {
      GroupedOtherFarm(rows, row, k);
    }
    FirstRowOfFarm(rows, row);
    SingleRowFarm(row);
    GroupedAt(rows + [row], |b|);
    assert a[|b|] == FarmOfRow(row);
    assert a == b + [FarmOfRow(row)];
  }

  /** A row of a farm already seen changes only that farm's rigs. */
  lemma GroupedExistingFarm(rows: seq<JoinRow>, row: JoinRow, k: nat)
    requires k < |Grouped(rows)| && Grouped(rows)[k].id == row.farmId
    ensures RowsOfFarm(rows, row.farmId) != []
    ensures Grouped(rows)[k].rigs == RigNodes(RowsOfFarm(rows, row.farmId), row.farmId)
    ensures Grouped(rows + [row]) == Grouped(rows)[k :=
      Grouped(rows)[k].(rigs := RigNodes(RowsOfFarm(rows, row.farmId) + [row], row.farmId))]
  {
    var farmId := row.farmId;
    var ids := FarmIds(rows);
    var a, b := Grouped(rows + [row]), Grouped(rows);
    var fr := RowsOfFarm(rows, farmId);
    var c := b[k := b[k].(rigs := RigNodes(fr + [row], farmId))];
    GroupedAt(rows, k);
    assert ids[k] == farmId;
    FarmIdsSnoc(rows, row);
    assert FarmIds(rows + [row]) == ids;
    FarmIdsHaveRows(rows);
    FarmIdsHaveRows(rows + [row]);
    DistinctNoDuplicates(FarmColumn(rows));
    forall i | 0 <= i < |a| && i != k ensures a[i] == c[i] {
      assert ids[i] != farmId;
      GroupedOtherFarm(rows, row, i);
    }
    GroupedAt(rows + [row], k);
    SnocFarmRows(rows, row, farmId);
    assert fr != [];
    assert (fr + [row])[0] == fr[0];
    assert a[k] == c[k];
    assert a == c;
  }

  // ---------------------------------------------------------------------
  // The handler

  /** The ids of the entries of `s`, in order, as `key` reads them. */
  function IdColumn<T>(s: seq<T>, key: T -> Id): (ids: seq<Id>)
    ensures |ids| == |s| && forall k :: 0 <= k < |ids| ==> ids[k] == key(s[k])
  {
    seq(|s|, k requires 0 <= k < |s| => key(s[k]))
  }

  /** `iter_mut().find(|x| x.id == id)` over the farms or over one farm's
      rigs, given their id column: the index of the first entry with that id. */
  method FindId(ids: seq<Id>, id: Id) returns (found: Option<nat>)
    ensures found.Some? ==>
      found.value < |ids| && ids[found.value] == id
      && forall j :: 0 <= j < found.value ==> ids[j] != id
    ensures found.None? <==> id !in ids
  {
    var k := 0;
    while k < |ids|
      invariant k <= |ids|
      invariant forall j :: 0 <= j < k ==> ids[j] != id
    {
      if ids[k] == id {
        return Some(k);
      }
      k := k + 1;
    }
    return None;
  }

  /** `get_farms`: a failed scan gives a server error; otherwise one pass over
      the rows, updating the farm list in place, yields `Grouped(rows)`. */
  method GetFarms(query: StoreResult<seq<JoinRow>>) returns (resp: Response<seq<Farm>>)
    ensures query.StoreError? ==> resp == InternalServerError("Error fetching farms with rigs and GPUs")
    ensures query.Fetched? ==> resp == Ok(Grouped(query.value))
  {
    match query
    case StoreError(_) =>
      resp := InternalServerError("Error fetching farms with rigs and GPUs");
    case Fetched(records) =>
      var farms: seq<Farm> := [];
      assert records[..0] == [];
      for i := 0 to |records|
        invariant farms == Grouped(records[..i])
      {
        var row := records[i];
        assert records[..i + 1] == records[..i] + [row];
        var found := FindId(IdColumn(farms, (f: Farm) => f.id), row.farmId);
        if found.Some? {
          var k := found.value;
          GroupedExistingFarm(records[..i], row, k);
          var fr := RowsOfFarm(records[..i], row.farmId);
          var farm := farms[k];
          if row.rigId.Some? {
            var rigId := row.rigId.value;
            var foundRig := FindId(IdColumn(farm.rigs, (r: Rig) => r.id), rigId);
            if foundRig.Some? {
              var j := foundRig.value;
              RigNodesExistingRig(fr, row.farmId, row, j);
              if row.gpuId.Some? {
                var rig := farm.rigs[j];
                rig := rig.(gpus := rig.gpus + [GpuOfRow(row, rigId)]);
                farms := farms[k := farm.(rigs := farm.rigs[j := rig])];
              } else {
                assert farm.rigs[j].gpus + GpusOfRow(row, rigId) == farm.rigs[j].gpus;
                assert farm.rigs[j := farm.rigs[j]] == farm.rigs;
                assert farms[k := farm] == farms;
              }
            } else {
              RigNodesNewRig(fr, row.farmId, row);
              farms := farms[k := farm.(rigs := farm.rigs + [RigOfRow(row)])];
            }
          } else {
            RigNodesNullRig(fr, row.farmId, row);
            assert farms[k := farm] == farms;
          }
        } else {
          GroupedNewFarm(records[..i], row);
          farms := farms + [FarmOfRow(row)];
        }
      }
      assert records[..|records|] == records;
      resp := Ok(farms);
  }
}
