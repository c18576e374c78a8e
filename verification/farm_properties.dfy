/** What the aggregation of v1/src/handlers/farm.rs guarantees, stated over the
    rows themselves and proved about `Farms.Grouped` (which `Farms.GetFarms`
    produces). */
module FarmProperties {
  import opened Values
  import opened Rigs
  import opened Grouping
  import opened Farms

  // ---------------------------------------------------------------------
  // Helpers relating the columns to the rows

  lemma {:induction false} FarmColumnAt(rows: seq<JoinRow>)
    ensures |FarmColumn(rows)| == |rows|
    ensures forall p :: 0 <= p < |rows| ==> FarmColumn(rows)[p] == rows[p].farmId
  {
    if rows != [] {
      FarmColumnAt(Init(rows));
    }
  }

  /** Some row carries farm id `farmId`. */
  ghost predicate HasFarmRow(rows: seq<JoinRow>, farmId: Id)
  {
    exists p :: 0 <= p < |rows| && rows[p].farmId == farmId
  }

  /** Some row of farm `farmId` carries rig id `rigId`. */
  ghost predicate HasRigRow(rows: seq<JoinRow>, farmId: Id, rigId: Id)
  {
    exists p :: 0 <= p < |rows| && rows[p].farmId == farmId && rows[p].rigId == Some(rigId)
  }

  /** Row `p` is the first row of farm `farmId`. */
  ghost predicate IsFirstFarmRow(rows: seq<JoinRow>, farmId: Id, p: nat)
  {
    && p < |rows| && rows[p].farmId == farmId
    && forall q :: 0 <= q < p ==> rows[q].farmId != farmId
  }

  /** Row `p` is the first row of rig `rigId` within farm `farmId`. */
  ghost predicate IsFirstRigRow(rows: seq<JoinRow>, farmId: Id, rigId: Id, p: nat)
  {
    && p < |rows| && rows[p].farmId == farmId && rows[p].rigId == Some(rigId)
    && forall q :: 0 <= q < p ==> !(rows[q].farmId == farmId && rows[q].rigId == Some(rigId))
  }

  lemma FarmColumnMembers(rows: seq<JoinRow>, farmId: Id)
    ensures farmId in FarmIds(rows) <==> HasFarmRow(rows, farmId)
  {
    FarmColumnAt(rows);
    DistinctMembers(FarmColumn(rows), farmId);
    if HasFarmRow(rows, farmId) {
      var p :| 0 <= p < |rows| && rows[p].farmId == farmId;
      assert FarmColumn(rows)[p] == farmId;
    }
  }

  /** The rows of a farm start with its first row. */
  lemma {:induction false} FirstOfFarmRows(rows: seq<JoinRow>, farmId: Id) returns (p: nat)
    requires RowsOfFarm(rows, farmId) != []
    ensures IsFirstFarmRow(rows, farmId, p) && RowsOfFarm(rows, farmId)[0] == rows[p]
  {
    var init, last := Init(rows), Last(rows);
    assert rows == init + [last];
    SnocFarmRows(init, last, farmId);
    if RowsOfFarm(init, farmId) != [] {
      p := FirstOfFarmRows(init, farmId);
    } else {
      p := |init|;
      forall q | 0 <= q < p ensures rows[q].farmId != farmId {
        NoFarmRows(init, farmId, q);
      }
    }
  }

  lemma {:induction false} NoFarmRows(rows: seq<JoinRow>, farmId: Id, q: nat)
    requires RowsOfFarm(rows, farmId) == [] && q < |rows|
    ensures rows[q].farmId != farmId
  {
    var init, last := Init(rows), Last(rows);
    assert rows == init + [last];
    SnocFarmRows(init, last, farmId);
    if q < |init| {
      NoFarmRows(init, farmId, q);
    }
  }

  /** One more row extends the rows of a rig within a farm when it carries both ids. */
  lemma SnocRigRowsOfFarm(rows: seq<JoinRow>, row: JoinRow, farmId: Id, rigId: Id)
    ensures RowsOfRig(RowsOfFarm(rows + [row], farmId), rigId) ==
      RowsOfRig(RowsOfFarm(rows, farmId), rigId) + (if row.farmId == farmId && row.rigId == Some(rigId) then [row] else [])
  {
    var fr := RowsOfFarm(rows, farmId);
    SnocFarmRows(rows, row, farmId);
    if row.farmId == farmId {
      SnocRigRows(fr, row, rigId);
    } else {
      assert fr + [] == fr;
    }
  }

  /** The rows of a rig within a farm are the rows that carry both ids. */
  lemma {:induction false} RigRowsOfFarm(rows: seq<JoinRow>, farmId: Id, rigId: Id)
    ensures (RowsOfRig(RowsOfFarm(rows, farmId), rigId) != []) <==> HasRigRow(rows, farmId, rigId)
    ensures RowsOfRig(RowsOfFarm(rows, farmId), rigId) != [] ==>
      exists p: nat :: IsFirstRigRow(rows, farmId, rigId, p) && RowsOfRig(RowsOfFarm(rows, farmId), rigId)[0] == rows[p]
  {
    if rows != [] {
      var init, last := Init(rows), Last(rows);
      assert rows == init + [last];
      RigRowsOfFarm(init, farmId, rigId);
      SnocRigRowsOfFarm(init, last, farmId, rigId);
      var before := RowsOfRig(RowsOfFarm(init, farmId), rigId);
      var sel := RowsOfRig(RowsOfFarm(rows, farmId), rigId);
      var hit := last.farmId == farmId && last.rigId == Some(rigId);
      assert sel == before + (if hit then [last] else []);
      if before != [] {
        var p: nat :| IsFirstRigRow(init, farmId, rigId, p) && before[0] == init[p];
        assert sel[0] == before[0];
        assert IsFirstRigRow(rows, farmId, rigId, p);
        assert HasRigRow(rows, farmId, rigId);
      } else if hit {
        assert sel == [last];
        assert IsFirstRigRow(rows, farmId, rigId, |init|);
        assert HasRigRow(rows, farmId, rigId);
      } else {
        assert sel == [];
        assert !HasRigRow(init, farmId, rigId);
        forall p | 0 <= p < |rows| ensures !(rows[p].farmId == farmId && rows[p].rigId == Some(rigId)) {
          if p < |init| {
            assert rows[p] == init[p];
          }
        }
      }
    }
  }

  lemma RigIdsOfFarm(rows: seq<JoinRow>, farmId: Id, rigId: Id)
    ensures rigId in RigIds(RowsOfFarm(rows, farmId)) <==> HasRigRow(rows, farmId, rigId)
  {
    var fr := RowsOfFarm(rows, farmId);
    DistinctMembers(RigColumn(fr), rigId);
    RigColumnHasRows(fr, rigId);
    RigRowsOfFarm(rows, farmId, rigId);
  }

  /** Every GPU built for rig `rigId` points back at that rig. */
  lemma {:induction false} GpusPointToRig(rr: seq<JoinRow>, rigId: Id)
    ensures forall i :: 0 <= i < |GpusOf(rr, rigId)| ==> GpusOf(rr, rigId)[i].rigId == Some(rigId)
  {
    if rr != [] {
      GpusPointToRig(Init(rr), rigId);
    }
  }

  // ---------------------------------------------------------------------
  // Farms

  /** Zero rows yield an empty farm list. */
  lemma NoRowsNoFarms()
    ensures Grouped([]) == []
  {
  }

  /** The farms of the result carry the distinct farm ids, in their order. */
  lemma GroupedIds(rows: seq<JoinRow>)
    ensures |Grouped(rows)| == |FarmIds(rows)|
    ensures forall k :: 0 <= k < |Grouped(rows)| ==> Grouped(rows)[k].id == FarmIds(rows)[k]
  {
    FarmIdsHaveRows(rows);
    forall k | 0 <= k < |Grouped(rows)| ensures Grouped(rows)[k].id == FarmIds(rows)[k] {
      GroupedAt(rows, k);
    }
  }

  /** The rigs of a farm carry the distinct rig ids of its rows, in their order. */
  lemma RigNodesIds(fr: seq<JoinRow>, farmId: Id)
    ensures |RigNodes(fr, farmId)| == |RigIds(fr)|
    ensures forall j :: 0 <= j < |RigIds(fr)| ==> RigNodes(fr, farmId)[j].id == RigIds(fr)[j]
  {
    RigIdsHaveRows(fr);
    forall j | 0 <= j < |RigIds(fr)| ensures RigNodes(fr, farmId)[j].id == RigIds(fr)[j] {
      RigNodesAt(fr, farmId, j);
    }
  }

  /** Each farm id of the rows appears in exactly one output farm, and no other farm appears. */
  lemma FarmsUnique(rows: seq<JoinRow>)
    ensures forall i, j :: 0 <= i < j < |Grouped(rows)| ==> Grouped(rows)[i].id != Grouped(rows)[j].id
    ensures forall farmId :: HasFarmRow(rows, farmId) <==>
      exists k :: 0 <= k < |Grouped(rows)| && Grouped(rows)[k].id == farmId
  {
    GroupedIds(rows);
    DistinctNoDuplicates(FarmColumn(rows));
    forall farmId
      ensures HasFarmRow(rows, farmId) <==> exists k :: 0 <= k < |Grouped(rows)| && Grouped(rows)[k].id == farmId
    {
      FarmColumnMembers(rows, farmId);
    }
  }

  /** Farms come in the order of their first rows: for an earlier farm there is
      a row of it before any row of a later farm. */
  lemma FarmsInFirstOccurrenceOrder(rows: seq<JoinRow>, i: nat, j: nat)
    requires i < j < |Grouped(rows)|
    ensures exists p :: 0 <= p < |rows| && rows[p].farmId == Grouped(rows)[i].id
                        && forall q :: 0 <= q <= p ==> rows[q].farmId != Grouped(rows)[j].id
  {
    var ids, column := FarmIds(rows), FarmColumn(rows);
    GroupedIds(rows);
    FarmColumnAt(rows);
    DistinctFirstOccurrenceOrder(column);
    var p := FirstIndex(column, ids[i]);
    var pj := FirstIndex(column, ids[j]);
    assert p < pj;
    forall q | 0 <= q <= p ensures rows[q].farmId != Grouped(rows)[j].id {
      assert column[..pj][q] == column[q];
    }
    assert rows[p].farmId == Grouped(rows)[i].id;
  }

  /** A farm's name and location are those of its first row; later rows never change them. */
  lemma FarmFieldsFromFirstRow(rows: seq<JoinRow>, k: nat)
    requires k < |Grouped(rows)|
    ensures exists p: nat :: (IsFirstFarmRow(rows, Grouped(rows)[k].id, p)
      && Grouped(rows)[k].name == rows[p].farmName
      && Grouped(rows)[k].location == rows[p].farmLocation)
  {
    assert |Grouped(rows)| == |FarmIds(rows)| by { GroupedAt(rows, k); }
    GroupedAt(rows, k);
    var farmId := FarmIds(rows)[k];
    var p := FirstOfFarmRows(rows, farmId);
  }

  // ---------------------------------------------------------------------
  // Rigs

  /** Within one farm each non-null rig id of that farm's rows yields exactly
      one rig, named after the first row that carries it, and no other rig
      appears; every rig points back at its farm and has an empty MAC address. */
  lemma RigsOfFarm(rows: seq<JoinRow>, k: nat)
    requires k < |Grouped(rows)|
    ensures var farm := Grouped(rows)[k];
      && (forall i, j :: 0 <= i < j < |farm.rigs| ==> farm.rigs[i].id != farm.rigs[j].id)
      && (forall rigId :: HasRigRow(rows, farm.id, rigId) <==>
            exists j :: 0 <= j < |farm.rigs| && farm.rigs[j].id == rigId)
      && (forall j :: 0 <= j < |farm.rigs| ==>
            && farm.rigs[j].farmId == Some(farm.id)
            && farm.rigs[j].macAddress == ""
            && exists p: nat :: IsFirstRigRow(rows, farm.id, farm.rigs[j].id, p)
                 && farm.rigs[j].name == OrEmpty(rows[p].rigName)
                 && farm.rigs[j].location == rows[p].rigLocation)
  {
    GroupedAt(rows, k);
    var farm := Grouped(rows)[k];
    var farmId := FarmIds(rows)[k];
    var fr := RowsOfFarm(rows, farmId);
    var ids := RigIds(fr);
    assert farm.rigs == RigNodes(fr, farmId);
    RigIdsHaveRows(fr);
    assert |farm.rigs| == |ids|;
    forall j | 0 <= j < |farm.rigs| ensures farm.rigs[j].id == ids[j] {
      RigNodesAt(fr, farmId, j);
    }
    DistinctNoDuplicates(RigColumn(fr));
    forall rigId
      ensures HasRigRow(rows, farmId, rigId) <==> exists j :: 0 <= j < |farm.rigs| && farm.rigs[j].id == rigId
    {
      RigIdsOfFarm(rows, farmId, rigId);
    }
    forall j | 0 <= j < |farm.rigs|
      ensures && farm.rigs[j].farmId == Some(farm.id)
              && farm.rigs[j].macAddress == ""
              && exists p: nat :: IsFirstRigRow(rows, farm.id, farm.rigs[j].id, p)
                   && farm.rigs[j].name == OrEmpty(rows[p].rigName)
                   && farm.rigs[j].location == rows[p].rigLocation
    {
      RigNodesAt(fr, farmId, j);
      RigRowsOfFarm(rows, farmId, ids[j]);
    }
  }

  /** Within farm `farmId`, some row of rig `a` comes before every row of rig `b`. */
  ghost predicate RigRowPrecedes(rows: seq<JoinRow>, farmId: Id, a: Id, b: Id)
  {
    exists p :: 0 <= p < |rows| && rows[p].farmId == farmId && rows[p].rigId == Some(a)
      && forall q :: 0 <= q <= p ==> !(rows[q].farmId == farmId && rows[q].rigId == Some(b))
  }

  /** The rig ids of a farm come in the order of their first rows. */
  lemma {:induction false} RigIdsInRowOrder(rows: seq<JoinRow>, farmId: Id, i: nat, j: nat)
    requires i < j < |RigIds(RowsOfFarm(rows, farmId))|
    ensures RigRowPrecedes(rows, farmId, RigIds(RowsOfFarm(rows, farmId))[i], RigIds(RowsOfFarm(rows, farmId))[j])
  {
    var ids := RigIds(RowsOfFarm(rows, farmId));
    if rows == [] {
      assert false;
    }
    var init, last := Init(rows), Last(rows);
    assert rows == init + [last];
    var fr0 := RowsOfFarm(init, farmId);
    var ids0 := RigIds(fr0);
    SnocFarmRows(init, last, farmId);
    if last.farmId == farmId {
      assert RowsOfFarm(rows, farmId) == fr0 + [last];
      RigIdsSnoc(fr0, last);
    } else {
      assert RowsOfFarm(rows, farmId) == fr0 + [];
      assert fr0 + [] == fr0;
    }
    assert ids == ids0 || (last.farmId == farmId && last.rigId.Some? && last.rigId.value !in ids0
                           && ids == ids0 + [last.rigId.value]);
    if j < |ids0| {
      assert ids[i] == ids0[i] && ids[j] == ids0[j];
      RigIdsInRowOrder(init, farmId, i, j);
      var p :| 0 <= p < |init| && init[p].farmId == farmId && init[p].rigId == Some(ids0[i])
        && forall q :: 0 <= q <= p ==> !(init[q].farmId == farmId && init[q].rigId == Some(ids0[j]));
      assert rows[p] == init[p];
      forall q | 0 <= q <= p ensures !(rows[q].farmId == farmId && rows[q].rigId == Some(ids[j])) {
        assert rows[q] == init[q];
      }
    } else {
      var a, b := ids0[i], last.rigId.value;
      assert ids[i] == a && ids[j] == b;
      RigIdsOfFarm(init, farmId, a);
      RigIdsOfFarm(init, farmId, b);
      var p :| 0 <= p < |init| && init[p].farmId == farmId && init[p].rigId == Some(a);
      assert rows[p] == init[p];
      forall q | 0 <= q <= p ensures !(rows[q].farmId == farmId && rows[q].rigId == Some(b)) {
        assert rows[q] == init[q];
      }
    }
  }

  /** Rigs come in the order of their first rows within their farm: for an
      earlier rig there is a row of it before any row of a later rig. */
  lemma RigsInFirstOccurrenceOrder(rows: seq<JoinRow>, k: nat, i: nat, j: nat)
    requires k < |Grouped(rows)| && i < j < |Grouped(rows)[k].rigs|
    ensures var farm := Grouped(rows)[k];
      exists p :: 0 <= p < |rows| && rows[p].farmId == farm.id && rows[p].rigId == Some(farm.rigs[i].id)
        && forall q :: 0 <= q <= p ==> !(rows[q].farmId == farm.id && rows[q].rigId == Some(farm.rigs[j].id))
  {
    GroupedAt(rows, k);
    var farmId := FarmIds(rows)[k];
    var fr := RowsOfFarm(rows, farmId);
    RigNodesIds(fr, farmId);
    RigIdsInRowOrder(rows, farmId, i, j);
  }

  /** A row whose rig id is null contributes no rig and no GPU, whatever its GPU
      columns hold: it leaves a known farm unchanged and creates an unknown one
      with no rigs. */
  lemma NullRigRowAddsNoRig(rows: seq<JoinRow>, row: JoinRow)
    requires row.rigId.None?
    ensures HasFarmRow(rows, row.farmId) ==> Grouped(rows + [row]) == Grouped(rows)
    ensures !HasFarmRow(rows, row.farmId) ==>
      Grouped(rows + [row]) == Grouped(rows) + [Farm(row.farmId, row.farmName, row.farmLocation, [])]
  {
    var g := Grouped(rows);
    FarmColumnMembers(rows, row.farmId);
    if HasFarmRow(rows, row.farmId) {
      var k :| 0 <= k < |FarmIds(rows)| && FarmIds(rows)[k] == row.farmId;
      GroupedAt(rows, k);
      GroupedExistingFarm(rows, row, k);
      RigNodesNullRig(RowsOfFarm(rows, row.farmId), row.farmId, row);
      assert g[k := g[k]] == g;
    } else {
      forall k | 0 <= k < |g| ensures g[k].id != row.farmId {
        GroupedAt(rows, k);
      }
      GroupedNewFarm(rows, row);
    }
  }

  // ---------------------------------------------------------------------
  // GPUs

  function RigGpuCount(rigs: seq<Rig>): nat
  {
    if rigs == [] then 0 else RigGpuCount(rigs[..|rigs| - 1]) + |rigs[|rigs| - 1].gpus|
  }

  /** The number of GPUs in a farm list. */
  function GpuCount(farms: seq<Farm>): nat
  {
    if farms == [] then 0 else GpuCount(farms[..|farms| - 1]) + RigGpuCount(farms[|farms| - 1].rigs)
  }

  /** The number of rows whose rig id and GPU id are both non-null. */
  function GpuRowCount(rows: seq<JoinRow>): nat
  {
    if rows == [] then 0
    else GpuRowCount(Init(rows)) + (if Last(rows).rigId.Some? && Last(rows).gpuId.Some? then 1 else 0)
  }

  lemma RigGpuCountAppend(rigs: seq<Rig>, rig: Rig)
    ensures RigGpuCount(rigs + [rig]) == RigGpuCount(rigs) + |rig.gpus|
  {
    assert (rigs + [rig])[..|rigs|] == rigs;
  }

  lemma {:induction false} RigGpuCountUpdate(rigs: seq<Rig>, j: nat, rig: Rig)
    requires j < |rigs|
    ensures RigGpuCount(rigs[j := rig]) + |rigs[j].gpus| == RigGpuCount(rigs) + |rig.gpus|
  {
    var n := |rigs| - 1;
    assert rigs[j := rig][..n] == if j == n then rigs[..n] else rigs[..n][j := rig];
    if j < n {
      RigGpuCountUpdate(rigs[..n], j, rig);
    }
  }

  lemma GpuCountAppend(farms: seq<Farm>, farm: Farm)
    ensures GpuCount(farms + [farm]) == GpuCount(farms) + RigGpuCount(farm.rigs)
  {
    assert (farms + [farm])[..|farms|] == farms;
  }

  lemma {:induction false} GpuCountUpdate(farms: seq<Farm>, k: nat, farm: Farm)
    requires k < |farms|
    ensures GpuCount(farms[k := farm]) + RigGpuCount(farms[k].rigs) == GpuCount(farms) + RigGpuCount(farm.rigs)
  {
    var n := |farms| - 1;
    assert farms[k := farm][..n] == if k == n then farms[..n] else farms[..n][k := farm];
    if k < n {
      GpuCountUpdate(farms[..n], k, farm);
    }
  }

  /** `GpuCountSnoc` when the row's farm is already in the result, at index `k`. */
  lemma GpuCountSnocKnownFarm(rows: seq<JoinRow>, row: JoinRow, k: nat)
    requires k < |Grouped(rows)| && Grouped(rows)[k].id == row.farmId
    ensures GpuCount(Grouped(rows + [row])) ==
      GpuCount(Grouped(rows)) + (if row.rigId.Some? && row.gpuId.Some? then 1 else 0)
  {
    var g := Grouped(rows);
    var farmId := row.farmId;
    GroupedExistingFarm(rows, row, k);
    var fr := RowsOfFarm(rows, farmId);
    var rigs := RigNodes(fr, farmId);
    var rigs' := RigNodes(fr + [row], farmId);
    GpuCountUpdate(g, k, g[k].(rigs := rigs'));
    if row.rigId.Some? {
      var rigId := row.rigId.value;
      var rids := RigIds(fr);
      RigNodesIds(fr, farmId);
      if rigId in rids {
        var j := FirstIndex(rids, rigId);
        RigNodesExistingRig(fr, farmId, row, j);
        RigGpuCountUpdate(rigs, j, rigs[j].(gpus := rigs[j].gpus + GpusOfRow(row, rigId)));
      } else {
        RigNodesNewRig(fr, farmId, row);
        RigGpuCountAppend(rigs, RigOfRow(row));
      }
    } else {
      RigNodesNullRig(fr, farmId, row);
    }
  }

  /** One more row adds exactly one GPU when its rig id and GPU id are both non-null, and none otherwise. */
  lemma GpuCountSnoc(rows: seq<JoinRow>, row: JoinRow)
    ensures GpuCount(Grouped(rows + [row])) ==
      GpuCount(Grouped(rows)) + (if row.rigId.Some? && row.gpuId.Some? then 1 else 0)
  {
    var g := Grouped(rows);
    var ids := FarmIds(rows);
    GroupedIds(rows);
    if row.farmId in ids {
      GpuCountSnocKnownFarm(rows, row, FirstIndex(ids, row.farmId));
    } else {
      GroupedNewFarm(rows, row);
      GpuCountAppend(g, FarmOfRow(row));
      if row.rigId.Some? {
        assert FarmOfRow(row).rigs == [] + [RigOfRow(row)];
        RigGpuCountAppend([], RigOfRow(row));
      }
    }
  }

  /** GPU ids are not deduplicated: the aggregation holds exactly one GPU per
      row whose rig id and GPU id are both non-null. */
  lemma {:induction false} GpuPerQualifyingRow(rows: seq<JoinRow>)
    ensures GpuCount(Grouped(rows)) == GpuRowCount(rows)
  {
    if rows != [] {
      var init, last := Init(rows), Last(rows);
      assert rows == init + [last];
      GpuPerQualifyingRow(init);
      GpuCountSnoc(init, last);
    }
  }

  /** Every GPU of the aggregation points back at the rig that holds it. */
  lemma GpusPointToTheirRig(rows: seq<JoinRow>, k: nat, j: nat)
    requires k < |Grouped(rows)| && j < |Grouped(rows)[k].rigs|
    ensures forall i :: 0 <= i < |Grouped(rows)[k].rigs[j].gpus| ==>
      Grouped(rows)[k].rigs[j].gpus[i].rigId == Some(Grouped(rows)[k].rigs[j].id)
  {
    GroupedAt(rows, k);
    var farmId := FarmIds(rows)[k];
    var fr := RowsOfFarm(rows, farmId);
    RigIdsHaveRows(fr);
    RigNodesAt(fr, farmId, j);
    GpusPointToRig(RowsOfRig(fr, RigIds(fr)[j]), RigIds(fr)[j]);
  }

  /** Rig `j` of farm `k` in `farms` has the ids of `row` and ends with the GPU that row builds. */
  ghost predicate EndsWithGpuOf(farms: seq<Farm>, row: JoinRow, k: nat, j: nat)
    requires row.rigId.Some? && row.gpuId.Some?
  {
    && k < |farms| && j < |farms[k].rigs|
    && farms[k].id == row.farmId
    && farms[k].rigs[j].id == row.rigId.value
    && |farms[k].rigs[j].gpus| > 0
    && farms[k].rigs[j].gpus[|farms[k].rigs[j].gpus| - 1] ==
         Gpu(row.gpuId.value,
             if row.gpuName.Some? then row.gpuName.value else "",
             if row.gpuTemp.Some? then row.gpuTemp.value else 0.0,
             if row.gpuWatt.Some? then row.gpuWatt.value else 0.0,
             Some(row.rigId.value))
  }

  /** Where the GPU of a row lands when the row's farm is already in the result. */
  lemma GpuPositionInKnownFarm(rows: seq<JoinRow>, row: JoinRow, k: nat) returns (j: nat)
    requires row.rigId.Some? && row.gpuId.Some?
    requires k < |Grouped(rows)| && Grouped(rows)[k].id == row.farmId
    ensures EndsWithGpuOf(Grouped(rows + [row]), row, k, j)
  {
    var g' := Grouped(rows + [row]);
    var farmId, rigId := row.farmId, row.rigId.value;
    var gpu := GpuOfRow(row, rigId);
    GroupedExistingFarm(rows, row, k);
    var fr := RowsOfFarm(rows, farmId);
    var rigs := RigNodes(fr, farmId);
    var rids := RigIds(fr);
    RigNodesIds(fr, farmId);
    if rigId in rids {
      j := FirstIndex(rids, rigId);
      RigNodesExistingRig(fr, farmId, row, j);
      assert g'[k].rigs[j].gpus == rigs[j].gpus + [gpu];
    } else {
      j := |rigs|;
      RigNodesNewRig(fr, farmId, row);
      assert g'[k].rigs[j].gpus == [gpu];
    }
  }

  /** A row carrying both a rig id and a GPU id appends, to that rig of that
      farm, one GPU built from its columns: a null name becomes "" and null
      readings become 0. */
  lemma RowAppendsItsGpu(rows: seq<JoinRow>, row: JoinRow)
    requires row.rigId.Some? && row.gpuId.Some?
    ensures exists k: nat, j: nat :: EndsWithGpuOf(Grouped(rows + [row]), row, k, j)
  {
    var g := Grouped(rows);
    var g' := Grouped(rows + [row]);
    var ids := FarmIds(rows);
    GroupedIds(rows);
    if row.farmId in ids {
      var k := FirstIndex(ids, row.farmId);
      var j := GpuPositionInKnownFarm(rows, row, k);
      assert EndsWithGpuOf(g', row, k, j);
    } else {
      GroupedNewFarm(rows, row);
      assert g'[|g|].rigs[0].gpus == [GpuOfRow(row, row.rigId.value)];
      assert EndsWithGpuOf(g', row, |g|, 0);
    }
  }

  // ---------------------------------------------------------------------
  // Short row sequences, and a worked example

  /** A single row gives the one farm that row creates. */
  lemma FirstRowCreatesFarm(r1: JoinRow)
    ensures Grouped([r1]) == [FarmOfRow(r1)]
    ensures RowsOfFarm([r1], r1.farmId) == [r1]
  {
    var e: seq<JoinRow> := [];
    assert Grouped(e) == [];
    GroupedNewFarm(e, r1);
    assert e + [r1] == [r1];
    SnocFarmRows(e, r1, r1.farmId);
  }

  /** A second row for the same rig of the same farm adds its GPU to that rig and nothing else. */
  lemma SecondRowSameRig(r1: JoinRow, r2: JoinRow)
    requires r1.farmId == r2.farmId && r1.rigId.Some? && r2.rigId == r1.rigId && r2.gpuId.Some?
    ensures var f1 := FarmOfRow(r1);
      Grouped([r1, r2]) == [f1.(rigs := [f1.rigs[0].(gpus := f1.rigs[0].gpus + [GpuOfRow(r2, r1.rigId.value)])])]
    ensures RowsOfFarm([r1, r2], r1.farmId) == [r1, r2]
  {
    var rigId := r1.rigId.value;
    var f1 := FarmOfRow(r1);
    FirstRowCreatesFarm(r1);
    assert [r1] + [r2] == [r1, r2];
    GroupedExistingFarm([r1], r2, 0);
    assert RigNodes([r1], r1.farmId) == f1.rigs == [RigOfRow(r1)];
    RigNodesExistingRig([r1], r1.farmId, r2, 0);
    var rig := f1.rigs[0].(gpus := f1.rigs[0].gpus + [GpuOfRow(r2, rigId)]);
    assert GpusOfRow(r2, rigId) == [GpuOfRow(r2, rigId)];
    assert RigNodes([r1, r2], r1.farmId) == [rig];
    SnocFarmRows([r1], r2, r1.farmId);
  }

  /** A row of a known farm, at index `k`, whose rig id is new to that farm
      appends the rig the row builds after that farm's rigs; no other farm changes. */
  lemma NextRowNewRig(rows: seq<JoinRow>, row: JoinRow, k: nat)
    requires k < |Grouped(rows)| && Grouped(rows)[k].id == row.farmId && row.rigId.Some?
    requires forall j :: 0 <= j < |Grouped(rows)[k].rigs| ==> Grouped(rows)[k].rigs[j].id != row.rigId.value
    ensures Grouped(rows + [row]) ==
      Grouped(rows)[k := Grouped(rows)[k].(rigs := Grouped(rows)[k].rigs + [RigOfRow(row)])]
  {
    GroupedExistingFarm(rows, row, k);
    RigNodesNewRig(RowsOfFarm(rows, row.farmId), row.farmId, row);
  }

  /** The first two rows of the example below: farm F1 with rig R1 holding G1 and G2. */
  lemma TwoRigsFirstRows(r1: JoinRow, r2: JoinRow)
    requires r1 == JoinRow(1, "F1", None, Some(1), Some("R1"), None, Some(1), Some("G1"), Some(60.0), Some(150.0))
    requires r2 == JoinRow(1, "F1", None, Some(1), Some("R1"), None, Some(2), Some("G2"), Some(55.0), Some(140.0))
    ensures Grouped([r1, r2]) ==
      [Farm(1, "F1", None, [Rig(1, "R1", "", None, Some(1),
        [Gpu(1, "G1", 60.0, 150.0, Some(1)), Gpu(2, "G2", 55.0, 140.0, Some(1))])])]
  {
    var g1 := Gpu(1, "G1", 60.0, 150.0, Some(1));
    var g2 := Gpu(2, "G2", 55.0, 140.0, Some(1));
    SecondRowSameRig(r1, r2);
    assert GpuOfRow(r1, 1) == g1 && GpuOfRow(r2, 1) == g2;
    assert GpusOfRow(r1, 1) == [g1];
    assert RigOfRow(r1) == Rig(1, "R1", "", None, Some(1), [g1]);
    assert FarmOfRow(r1) == Farm(1, "F1", None, [Rig(1, "R1", "", None, Some(1), [g1])]);
    assert [g1] + [g2] == [g1, g2];
  }

  /** Farm F1 with rig R1 (GPUs G1, G2) and rig R2 (no GPU): three join rows
      give one farm holding two rigs, the first with two GPUs. */
  lemma TwoRigsExample(r1: JoinRow, r2: JoinRow, r3: JoinRow)
    requires r1 == JoinRow(1, "F1", None, Some(1), Some("R1"), None, Some(1), Some("G1"), Some(60.0), Some(150.0))
    requires r2 == JoinRow(1, "F1", None, Some(1), Some("R1"), None, Some(2), Some("G2"), Some(55.0), Some(140.0))
    requires r3 == JoinRow(1, "F1", None, Some(2), Some("R2"), None, None, None, None, None)
    ensures Grouped([r1, r2, r3]) ==
      [Farm(1, "F1", None, [
        Rig(1, "R1", "", None, Some(1), [Gpu(1, "G1", 60.0, 150.0, Some(1)), Gpu(2, "G2", 55.0, 140.0, Some(1))]),
        Rig(2, "R2", "", None, Some(1), [])])]
  {
    var rig1 := Rig(1, "R1", "", None, Some(1), [Gpu(1, "G1", 60.0, 150.0, Some(1)), Gpu(2, "G2", 55.0, 140.0, Some(1))]);
    var f2 := Farm(1, "F1", None, [rig1]);
    TwoRigsFirstRows(r1, r2);
    assert RigOfRow(r3) == Rig(2, "R2", "", None, Some(1), []);
    NextRowNewRig([r1, r2], r3, 0);
    assert [r1, r2] + [r3] == [r1, r2, r3];
    var f3 := f2.(rigs := [rig1] + [RigOfRow(r3)]);
    assert [f2][0 := f3] == [f3];
    assert [rig1] + [RigOfRow(r3)] == [rig1, RigOfRow(r3)];
  }

  /** The same GPU row twice yields the GPU twice: GPU ids are not deduplicated. */
  lemma RepeatedGpuRowExample(row: JoinRow)
    requires row.rigId.Some? && row.gpuId.Some?
    ensures |Grouped([row, row])| == 1
    ensures |Grouped([row, row])[0].rigs| == 1
    ensures Grouped([row, row])[0].rigs[0].gpus == [GpuOfRow(row, row.rigId.value), GpuOfRow(row, row.rigId.value)]
  {
    SecondRowSameRig(row, row);
  }
}
