/**
 * The records the hostel server stores, and how it builds the room and the
 * warden-message records from a submitted form.
 */
module Records {
  import opened Wrappers
  import opened Numerals

  /** A stored record: a JSON object whose values are strings. */
  type Record = map<string, string>

  /** The fields of a submitted form, each with its text. */
  type Body = map<string, string>

  /** `body[key] || dflt`: the submitted text unless the field is missing or empty. */
  function OrDefault(body: Body, key: string, dflt: string): string
  {
    if key in body && body[key] != "" then body[key] else dflt
  }

  /**
   * `{ key: body[key] }`: a missing field is `undefined`, which JSON
   * serialisation leaves out of the stored object.
   */
  function Copied(body: Body, key: string): Record
  {
    if key in body then map[key := body[key]] else map[]
  }

  /** The four per-occupant fields, in the order the room builder fills them. */
  const OccupantPrefixes: seq<string> := ["studentName", "parentName", "studentMobile", "collegeName"]

  /** The number of occupant slots in a room. */
  const OccupantSlots: nat := 5

  /** The furniture counts of a room. */
  const FurnitureNames: seq<string> := ["chairs", "tables", "beds", "fans"]

  /** The field name `${prefix}${i}`. */
  function OccupantKey(prefix: string, i: nat): string
  {
    prefix + DecimalString(i)
  }

  /** The four field names the room builder fills in round `i`. */
  function RoundKeys(i: nat): set<string>
  {
    {OccupantKey("studentName", i), OccupantKey("parentName", i),
     OccupantKey("studentMobile", i), OccupantKey("collegeName", i)}
  }

  /** The field names filled after rounds 1 to `n`. */
  function OccupantKeysUpTo(n: nat): set<string>
  {
    if n == 0 then {} else OccupantKeysUpTo(n - 1) + RoundKeys(n)
  }

  /** An occupant field name read off its text: a known prefix and one slot digit 1..5. */
  predicate IsOccupantKey(k: string)
  {
    |k| > 0 && k[..|k| - 1] in OccupantPrefixes && '1' <= k[|k| - 1] <= '5'
  }

  lemma OccupantKeyShape(p: string, i: nat, k: string)
    requires i < 10
    ensures k == OccupantKey(p, i) <==> |k| > 0 && k[..|k| - 1] == p && k[|k| - 1] == Digit(i)
  {
    if |k| > 0 {
      assert k == k[..|k| - 1] + [k[|k| - 1]];
    }
  }

  lemma RoundKeysMembers(i: nat, k: string)
    requires i < 10
    ensures k in RoundKeys(i) <==> |k| > 0 && k[..|k| - 1] in OccupantPrefixes && k[|k| - 1] == Digit(i)
  {
    OccupantKeyShape("studentName", i, k);
    OccupantKeyShape("parentName", i, k);
    OccupantKeyShape("studentMobile", i, k);
    OccupantKeyShape("collegeName", i, k);
  }

  lemma {:induction false} OccupantKeysUpToMembers(n: nat, k: string)
    requires n < 10
    ensures k in OccupantKeysUpTo(n) <==>
      |k| > 0 && k[..|k| - 1] in OccupantPrefixes && '1' <= k[|k| - 1] && k[|k| - 1] as int <= '0' as int + n
  {
    if n > 0 {
      OccupantKeysUpToMembers(n - 1, k);
      RoundKeysMembers(n, k);
    }
  }

  /** The field names filled after all five rounds are exactly the occupant field names. */
  lemma OccupantKeysExactly(k: string)
    ensures k in OccupantKeysUpTo(OccupantSlots) <==> IsOccupantKey(k)
  {
    OccupantKeysUpToMembers(OccupantSlots, k);
  }

  /** Occupant field names are at least 11 characters long, longer than every other field name. */
  lemma OccupantKeyLength(k: string)
    requires IsOccupantKey(k)
    ensures |k| >= 11
  {
    assert |k[..|k| - 1]| >= 10;
  }

  /** The occupant part of a room record. */
  function OccupantFields(body: Body): Record
  {
    map k | k in OccupantKeysUpTo(OccupantSlots) :: OrDefault(body, k, "")
  }

  /** The furniture part of a room record. */
  function FurnitureFields(body: Body): Record
  {
    map[
      "chairs" := OrDefault(body, "chairs", "0"),
      "tables" := OrDefault(body, "tables", "0"),
      "beds" := OrDefault(body, "beds", "0"),
      "fans" := OrDefault(body, "fans", "0")]
  }

  /** The record `/submit-room` stores: room number, then occupants, then furniture counts. */
  function RoomRecord(body: Body): Record
  {
    Copied(body, "roomNumber") + OccupantFields(body) + FurnitureFields(body)
  }

  /**
   * Field by field, what a room record holds under `k`: the room number as
   * submitted (nothing when it is missing), an occupant field as submitted or
   * "", a furniture count as submitted or "0", and no other field.
   */
  function RoomField(body: Body, k: string): Option<string>
  {
    if k == "roomNumber" then (if k in body then Some(body[k]) else None)
    else if IsOccupantKey(k) then Some(OrDefault(body, k, ""))
    else if k in FurnitureNames then Some(OrDefault(body, k, "0"))
    else None
  }

  /** The room record agrees with the field-by-field description, for every field name. */
  lemma RoomRecordFields(body: Body, k: string)
    ensures k in RoomRecord(body) <==> RoomField(body, k).Some?
    ensures k in RoomRecord(body) ==> RoomRecord(body)[k] == RoomField(body, k).value
  {
    OccupantKeysExactly(k);
    if IsOccupantKey(k) {
      OccupantKeyLength(k);
      assert k !in FurnitureNames;
    }
  }

  /**
   * Each of the 20 occupant fields is what was submitted when that is not
   * empty, and "" otherwise.
   */
  lemma RoomOccupants(body: Body)
    ensures forall p, i | p in OccupantPrefixes && 1 <= i <= OccupantSlots ::
      var k := OccupantKey(p, i);
      k in RoomRecord(body) && RoomRecord(body)[k] == (if k in body && body[k] != "" then body[k] else "")
  {
    forall p, i | p in OccupantPrefixes && 1 <= i <= OccupantSlots
      ensures var k := OccupantKey(p, i);
        k in RoomRecord(body) && RoomRecord(body)[k] == (if k in body && body[k] != "" then body[k] else "")
    {
      var k := OccupantKey(p, i);
      assert k == p + [Digit(i)] && k[..|k| - 1] == p;
      RoomRecordFields(body, k);
    }
  }

  /**
   * Each furniture count is what was submitted when that is not empty, and
   * "0" otherwise; the room number is copied without a default.
   */
  lemma RoomFurnitureAndNumber(body: Body)
    ensures forall f | f in FurnitureNames ::
      f in RoomRecord(body) && RoomRecord(body)[f] == (if f in body && body[f] != "" then body[f] else "0")
    ensures "roomNumber" in RoomRecord(body) <==> "roomNumber" in body
    ensures "roomNumber" in body ==> RoomRecord(body)["roomNumber"] == body["roomNumber"]
  {
    forall f | f in FurnitureNames
      ensures f in RoomRecord(body) && RoomRecord(body)[f] == (if f in body && body[f] != "" then body[f] else "0")
    {
      RoomRecordFields(body, f);
    }
    RoomRecordFields(body, "roomNumber");
  }

  /**
   * The room builder of `/submit-room`: a loop over the five slots fills the
   * four occupant fields of each, then the room number and the furniture
   * counts are added around them.
   */
  method BuildRoom(body: Body) returns (room: Record)
    ensures room == RoomRecord(body)
  {
    var occupants: Record := map[];
    for i := 1 to OccupantSlots + 1
      invariant occupants.Keys == OccupantKeysUpTo(i - 1)
      invariant forall k | k in occupants :: occupants[k] == OrDefault(body, k, "")
    {
      var studentName, parentName := OccupantKey("studentName", i), OccupantKey("parentName", i);
      var studentMobile, collegeName := OccupantKey("studentMobile", i), OccupantKey("collegeName", i);
      occupants := occupants[studentName := OrDefault(body, studentName, "")];
      occupants := occupants[parentName := OrDefault(body, parentName, "")];
      occupants := occupants[studentMobile := OrDefault(body, studentMobile, "")];
      occupants := occupants[collegeName := OrDefault(body, collegeName, "")];
    }
    assert occupants == OccupantFields(body);
    room := Copied(body, "roomNumber") + occupants + FurnitureFields(body);
  }

  /**
   * The record `/send-warden-message` stores: the title or "", the message
   * as submitted (left out when missing), and the date it was sent.
   */
  function WardenMessage(body: Body, date: string): (m: Record)
    ensures "title" in m && m["title"] == (if "title" in body && body["title"] != "" then body["title"] else "")
    ensures "message" in m <==> "message" in body
    ensures "message" in body ==> m["message"] == body["message"]
    ensures "date" in m && m["date"] == date
    ensures forall k | k in m :: k == "title" || k == "message" || k == "date"
  {
    map["title" := OrDefault(body, "title", "")] + Copied(body, "message") + map["date" := date]
  }
}
