/** The rig records of v1/src/handlers/rig.rs and its three handlers:
    listing rigs, listing rigs with their GPUs, and moving a rig to a farm. */
module Rigs {
  import opened Values

  /** An existing GPU; `temp` and `watt` are `f64` in the store. */
  datatype Gpu = Gpu(id: Id, name: string, temp: real, watt: real, rigId: Option<Id>)

  /** An existing rig together with the GPUs it hosts. */
  datatype Rig = Rig(id: Id, name: string, macAddress: string, location: Option<string>,
                     farmId: Option<Id>, gpus: seq<Gpu>)

  /** The body of a request moving a rig to another farm. */
  datatype MoveRigRequest = MoveRigRequest(farmId: Id)

  /** One row of the scan `SELECT id, name, mac_address, location, farm_id FROM rig`. */
  datatype RigRecord = RigRecord(id: Id, name: string, macAddress: string, location: Option<string>,
                                 farmId: Option<Id>)

  /** `rig` carries the five columns of `rec` unchanged. */
  predicate Describes(rig: Rig, rec: RigRecord)
  {
    && rig.id == rec.id
    && rig.name == rec.name
    && rig.macAddress == rec.macAddress
    && rig.location == rec.location
    && rig.farmId == rec.farmId
  }

  /** The GPU list attached to a rig when the per-rig GPU query returned `lookup`:
      a failed query gives the rig no GPUs instead of failing the request. */
  function GpusOrEmpty(lookup: StoreResult<seq<Gpu>>): seq<Gpu>
  {
    match lookup
    case Fetched(gpus) => gpus
    case StoreError(_) => []
  }

  /** `get_rigs`: one rig per record, in record order, with no GPUs. */
  method GetRigs(query: StoreResult<seq<RigRecord>>) returns (resp: Response<seq<Rig>>)
    ensures query.StoreError? <==> resp.InternalServerError?
    ensures query.StoreError? ==> resp.message == "Error fetching rig data"
    ensures query.Fetched? ==>
      && |resp.body| == |query.value|
      && forall i :: 0 <= i < |query.value| ==>
           Describes(resp.body[i], query.value[i]) && resp.body[i].gpus == []
  {
    match query
    case StoreError(_) =>
      resp := InternalServerError("Error fetching rig data");
    case Fetched(records) =>
      var rigList: seq<Rig> := [];
      for k := 0 to |records|
        invariant |rigList| == k
        invariant forall i :: 0 <= i < k ==> Describes(rigList[i], records[i]) && rigList[i].gpus == []
      {
        var rec := records[k];
        rigList := rigList + [Rig(rec.id, rec.name, rec.macAddress, rec.location, rec.farmId, [])];
      }
      resp := Ok(rigList);
  }

  /** `get_rigs_with_gpus`: one rig per record, in record order, whose GPUs are
      what the per-rig query `gpusOf(id)` returned for that rig's id (none when
      that query failed). */
  method GetRigsWithGpus(query: StoreResult<seq<RigRecord>>, gpusOf: Id -> StoreResult<seq<Gpu>>)
    returns (resp: Response<seq<Rig>>)
    ensures query.StoreError? <==> resp.InternalServerError?
    ensures query.StoreError? ==> resp.message == "Error fetching Rig data"
    ensures query.Fetched? ==>
      && |resp.body| == |query.value|
      && forall i :: 0 <= i < |query.value| ==>
           && Describes(resp.body[i], query.value[i])
           && (gpusOf(query.value[i].id).Fetched? ==> resp.body[i].gpus == gpusOf(query.value[i].id).value)
           && (gpusOf(query.value[i].id).StoreError? ==> resp.body[i].gpus == [])
  {
    match query
    case StoreError(_) =>
      resp := InternalServerError("Error fetching Rig data");
    case Fetched(records) =>
      var rigList: seq<Rig> := [];
      for k := 0 to |records|
        invariant |rigList| == k
        invariant forall i :: 0 <= i < k ==>
          Describes(rigList[i], records[i]) && rigList[i].gpus == GpusOrEmpty(gpusOf(records[i].id))
      {
        var rec := records[k];
        var gpus := GpusOrEmpty(gpusOf(rec.id));
        rigList := rigList + [Rig(rec.id, rec.name, rec.macAddress, rec.location, rec.farmId, gpus)];
      }
      resp := Ok(rigList);
  }

  /** The rig table after `UPDATE rig SET farm_id = ? WHERE id = ?` succeeded:
      only the farm of the addressed rig changes, and the target farm is not
      looked up. */
  function MoveRig(rows: map<Id, RigRecord>, rigId: Id, farmId: Id): (r: map<Id, RigRecord>)
    ensures r.Keys == rows.Keys
    ensures forall id :: id in rows && id != rigId ==> r[id] == rows[id]
    ensures rigId in rows ==>
      && r[rigId].farmId == Some(farmId)
      && r[rigId].id == rows[rigId].id
      && r[rigId].name == rows[rigId].name
      && r[rigId].macAddress == rows[rigId].macAddress
      && r[rigId].location == rows[rigId].location
  {
    if rigId in rows then rows[rigId := rows[rigId].(farmId := Some(farmId))] else rows
  }

  /** Moving a rig twice leaves it where the second move put it. */
  lemma MoveRigLastWins(rows: map<Id, RigRecord>, rigId: Id, first: Id, second: Id)
    ensures MoveRig(MoveRig(rows, rigId, first), rigId, second) == MoveRig(rows, rigId, second)
  {
    var a := MoveRig(MoveRig(rows, rigId, first), rigId, second);
    var b := MoveRig(rows, rigId, second);
    assert forall id :: id in a ==> a[id] == b[id];
  }

  /** Moves of two different rigs commute. */
  lemma MovesOfDistinctRigsCommute(rows: map<Id, RigRecord>, rigA: Id, farmA: Id, rigB: Id, farmB: Id)
    requires rigA != rigB
    ensures MoveRig(MoveRig(rows, rigA, farmA), rigB, farmB) == MoveRig(MoveRig(rows, rigB, farmB), rigA, farmA)
  {
    var a := MoveRig(MoveRig(rows, rigA, farmA), rigB, farmB);
    var b := MoveRig(MoveRig(rows, rigB, farmB), rigA, farmA);
    assert forall id :: id in a ==> a[id] == b[id];
  }

  /** The `rig` table of the store, as far as `update_rig_farm` touches it. */
  class RigTable {
    var rows: map<Id, RigRecord>

    constructor (initial: map<Id, RigRecord>)
      ensures rows == initial
    {
      rows := initial;
    }

    /** `update_rig_farm`: `failure` is the store's diagnostic when the update
        statement fails (for instance a foreign-key violation), None when it
        succeeds. */
    method UpdateRigFarm(rigId: Id, request: MoveRigRequest, failure: Option<string>)
      returns (resp: Response<string>)
      modifies this
      ensures failure.Some? ==>
        rows == old(rows) && resp == InternalServerError("Failed to move rig: " + failure.value)
      ensures failure.None? ==>
        rows == MoveRig(old(rows), rigId, request.farmId) && resp == Ok("Rig moved to new farm successfully")
    {
      var newFarmId := request.farmId;
      match failure
      case Some(err) =>
        resp := InternalServerError("Failed to move rig: " + err);
      case None =>
        rows := MoveRig(rows, rigId, newFarmId);
        resp := Ok("Rig moved to new farm successfully");
    }
  }
}
