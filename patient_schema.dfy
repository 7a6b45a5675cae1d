/**
 * The read-side mapper of backend/app/schemas/patient.py: a stored patient document
 * is handed to the API with its `_id` renamed to `id_patient`.
 */
module PatientSchema {
  import opened Wrappers
  import opened Documents
  import opened ExtractionUtils

  /**
   * `patientDataEntity`: `id_patient` is set from `_id`, then every other entry is copied
   * over it. A document without `_id` raises `KeyError`, modelled as `None`.
   */
  function PatientDataEntity(item: Document): (r: Option<Document>)
    ensures r.Some? <==> "_id" in item
    ensures r.Some? ==> "_id" !in r.value && r.value.Keys == item.Keys - {"_id"} + {"id_patient"}
    ensures r.Some? ==> forall k :: k in item && k != "_id" ==> r.value[k] == item[k]
    ensures r.Some? && "id_patient" !in item ==> r.value["id_patient"] == item["_id"]
  {
    if "_id" !in item then None
    else Some(map["id_patient" := item["_id"]] + map k | k in item && k != "_id" :: item[k])
  }

  /** The stored form of an entity: `id_patient` goes back to `_id`. */
  function StoredForm(entity: Document): (item: Document)
    requires "id_patient" in entity
  {
    map["_id" := entity["id_patient"]] + map k | k in entity && k != "id_patient" :: entity[k]
  }

  /**
   * A document that has an `_id` and no `id_patient` of its own loses nothing: storing
   * the entity again gives back the document.
   */
  lemma EntityRoundTrip(item: Document)
    requires "_id" in item && "id_patient" !in item
    ensures PatientDataEntity(item).Some?
    ensures StoredForm(PatientDataEntity(item).value) == item
  {
    var e := PatientDataEntity(item).value;
    var back := StoredForm(e);
    assert back.Keys == item.Keys;
    forall k | k in item
      ensures back[k] == item[k]
    {
      if k != "_id" {
        assert k != "id_patient";
      }
    }
  }

  /**
   * A document that has its own `id_patient` keeps it: the value of `_id` is then not
   * visible in the entity, so two such documents that differ only in `_id` look alike.
   */
  lemma OwnIdPatientWins(item: Document, otherId: Value)
    requires "_id" in item && "id_patient" in item
    ensures PatientDataEntity(item).value["id_patient"] == item["id_patient"]
    ensures PatientDataEntity(item["_id" := otherId]) == PatientDataEntity(item)
  {
    var other := item["_id" := otherId];
    var a, b := PatientDataEntity(other).value, PatientDataEntity(item).value;
    assert a.Keys == b.Keys;
    forall k | k in a
      ensures a[k] == b[k]
    {
      assert k in other && k != "_id";
      assert other[k] == item[k];
    }
    assert a == b;
  }

  /**
   * `patientDataListEntity`: every document is mapped, in order; the comprehension raises
   * as soon as one document lacks `_id`, modelled as `None`.
   */
  function PatientDataListEntity(items: seq<Document>): (r: Option<seq<Document>>)
    ensures r.Some? <==> forall i :: 0 <= i < |items| ==> "_id" in items[i]
    ensures r.Some? ==> |r.value| == |items| &&
                        forall i :: 0 <= i < |items| ==> PatientDataEntity(items[i]) == Some(r.value[i])
    decreases |items|
  {
    if items == [] then Some([])
    else
      var init := PatientDataListEntity(items[..|items| - 1]);
      var last := PatientDataEntity(items[|items| - 1]);
      if init.None? || last.None? then None else Some(init.value + [last.value])
  }

  /** Mapping a concatenation maps each part. */
  lemma ListEntityAppend(xs: seq<Document>, ys: seq<Document>)
    requires PatientDataListEntity(xs).Some? && PatientDataListEntity(ys).Some?
    ensures PatientDataListEntity(xs + ys) == Some(PatientDataListEntity(xs).value + PatientDataListEntity(ys).value)
  {
    var a, b := PatientDataListEntity(xs).value, PatientDataListEntity(ys).value;
    var r := PatientDataListEntity(xs + ys);
    assert forall i :: 0 <= i < |xs + ys| ==> "_id" in (xs + ys)[i] by {
      forall i | 0 <= i < |xs + ys|
        ensures "_id" in (xs + ys)[i]
      {
        if i >= |xs| {
          assert (xs + ys)[i] == ys[i - |xs|];
        }
      }
    }
    assert r.value == a + b by {
      forall i | 0 <= i < |xs + ys|
        ensures r.value[i] == (a + b)[i]
      {
        if i < |xs| {
          assert PatientDataEntity(xs[i]) == Some(r.value[i]);
        } else {
          assert PatientDataEntity(ys[i - |xs|]) == Some(r.value[i]);
        }
      }
    }
  }

  lemma IdPatientKeyUnused()
    ensures "id_patient" !in BaseKeys && "id_patient" !in BurnKeys && "id_patient" !in DischargeKeys
    ensures "id_patient" != "medical_history"
  {
  }

  /** The assembler never stores an `id_patient` entry. */
  lemma IdPatientNotStored(doc: MongoDocument)
    ensures "id_patient" !in ToDict(doc)
  {
    BaseDictKeys(doc);
    DischargeDictKeys(doc);
    IdPatientKeyUnused();
    if doc.burn.Some? {
      BurnDictKeys(doc.burn.value);
    }
  }

  /**
   * A document stored by the assembler reads back with `id_patient` equal to the patient
   * id, and every other stored entry unchanged.
   */
  lemma StoredDocumentReadBack(doc: MongoDocument)
    ensures var e := PatientDataEntity(ToDict(doc));
            e.Some? && e.value["id_patient"] == Int(doc.id) &&
            forall k :: k in ToDict(doc) && k != "_id" ==> e.value[k] == ToDict(doc)[k]
  {
    ToDictId(doc);
    IdPatientNotStored(doc);
  }
}
