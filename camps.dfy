/**
 * CampsController: the camp list and the lookup of one camp by id, over the camps table and
 * the speakers table. A lookup that throws (a database fault; the model takes it as the
 * `throws` argument) becomes 400.
 */
module Camps {
  import opened Wrappers
  import opened Http
  import opened Entities
  import opened Text

  /** The two tables the camp queries read. */
  datatype CampDb = CampDb(camps: seq<Camp>, speakers: seq<Row>)

  /** A camp as a query returns it: `speakers` is `None` unless the query loads them. */
  datatype LoadedCamp = LoadedCamp(camp: Camp, speakers: Option<seq<Row>>)

  /** Position `i` holds the first camp with key `id`. */
  predicate FirstWithId(camps: seq<Camp>, i: int, id: int) {
    0 <= i < |camps| && camps[i].id == id && forall j :: 0 <= j < i ==> camps[j].id != id
  }

  /** The first camp with key `id`. */
  function FindCamp(camps: seq<Camp>, id: int): (r: Option<Camp>)
    ensures r.None? <==> forall i :: 0 <= i < |camps| ==> camps[i].id != id
    ensures r.Some? ==> exists i :: FirstWithId(camps, i, id) && camps[i] == r.value
  {
    if camps == [] then None
    else if camps[0].id == id then
      assert FirstWithId(camps, 0, id);
      Some(camps[0])
    else
      var r := FindCamp(camps[1..], id);
      assert r.Some? ==> exists i :: FirstWithId(camps, i, id) && camps[i] == r.value by {
        if r.Some? {
          var i :| FirstWithId(camps[1..], i, id) && camps[1..][i] == r.value;
          assert forall j :: 1 <= j < i + 1 ==> camps[j] == camps[1..][j - 1];
          assert FirstWithId(camps, i + 1, id);
        }
      }
      r
  }

  /** The speakers whose camp has moniker `moniker`, in table order. */
  function SpeakersOfCamp(rows: seq<Row>, moniker: string): (r: seq<Row>)
    ensures forall x :: x in r <==> x in rows && x.speaker.camp == moniker
  {
    if rows == [] then []
    else (if rows[0].speaker.camp == moniker then [rows[0]] else []) + SpeakersOfCamp(rows[1..], moniker)
  }

  /** `GetCamp(id)`: the camp with that key, without its speakers. */
  function GetCamp(db: CampDb, id: int): (r: Option<LoadedCamp>)
    ensures r.None? <==> forall i :: 0 <= i < |db.camps| ==> db.camps[i].id != id
    ensures r.Some? ==> r.value.camp in db.camps && r.value.camp.id == id && r.value.speakers.None?
  {
    match FindCamp(db.camps, id)
    case None => None
    case Some(c) => Some(LoadedCamp(c, None))
  }

  /** `GetCampWithSpeakers(id)`: the camp with that key, with exactly the speakers of its moniker. */
  function GetCampWithSpeakers(db: CampDb, id: int): (r: Option<LoadedCamp>)
    ensures r.None? <==> forall i :: 0 <= i < |db.camps| ==> db.camps[i].id != id
    ensures r.Some? ==> r.value.camp in db.camps && r.value.camp.id == id && r.value.speakers.Some?
    ensures r.Some? ==> forall x :: x in r.value.speakers.value <==> x in db.speakers && x.speaker.camp == r.value.camp.moniker
  {
    match FindCamp(db.camps, id)
    case None => None
    case Some(c) => Some(LoadedCamp(c, Some(SpeakersOfCamp(db.speakers, c.moniker))))
  }

  /** `$"Camp {id} was not found"`. */
  function NotFoundMessage(id: int): (m: string)
    ensures |m| >= 20 && m[..5] == "Camp " && m[|m| - 14..] == " was not found"
  {
    "Camp " + IntToString(id) + " was not found"
  }

  /** The id can be read back from the not-found message it was built into. */
  lemma NotFoundMessageNamesId(id: int)
    ensures var m := NotFoundMessage(id); ParseInt(m[5..|m| - 14]) == Some(id)
  {
    var m := NotFoundMessage(id);
    assert m[5..|m| - 14] == IntToString(id);
    IntToStringRoundTrip(id);
  }

  /** `Get()`: every camp of the table, in table order, unfiltered and unpaged. */
  function GetAll(db: CampDb): (r: Response<seq<Camp>>)
    ensures r.Ok? && |r.body| == |db.camps|
    ensures forall c :: c in r.body <==> c in db.camps
  {
    Ok(db.camps)
  }

  /**
   * `Get(id, includeSpeakers)`: 404 with a message naming the id when no camp has it, 200
   * with the camp (and its speakers when asked for) otherwise, 400 only when the lookup throws.
   */
  function Get(db: CampDb, id: int, includeSpeakers: bool, throws: bool): (r: Response<LoadedCamp>)
    ensures r.BadRequest? <==> throws
    ensures r.BadRequest? ==> r.message == None
    ensures !throws ==> (r.NotFound? <==> forall i :: 0 <= i < |db.camps| ==> db.camps[i].id != id)
    ensures r.NotFound? ==> r.message == Some(NotFoundMessage(id))
    ensures r.Ok? ==> r.body.camp in db.camps && r.body.camp.id == id && (r.body.speakers.Some? <==> includeSpeakers)
    ensures r.Ok? && includeSpeakers ==> forall x :: x in r.body.speakers.value <==> x in db.speakers && x.speaker.camp == r.body.camp.moniker
  {
    if throws then BadRequest(None)
    else
      var camp := if includeSpeakers then GetCampWithSpeakers(db, id) else GetCamp(db, id);
      if camp.None? then NotFound(Some(NotFoundMessage(id)))
      else Ok(camp.value)
  }

  /** A camp id that is not in the table never yields 400 or 200: only the 404 naming that id, unless the lookup throws. */
  lemma MissingCampIsNotFound(db: CampDb, id: int, includeSpeakers: bool)
    requires forall i :: 0 <= i < |db.camps| ==> db.camps[i].id != id
    ensures Get(db, id, includeSpeakers, false) == NotFound(Some(NotFoundMessage(id)))
  {
  }

  /** Under a unique key, the camp found is the one stored under that key. */
  lemma FoundCampIsStoredCamp(db: CampDb, i: nat, includeSpeakers: bool)
    requires i < |db.camps|
    requires forall j, k :: 0 <= j < |db.camps| && 0 <= k < |db.camps| && j != k ==> db.camps[j].id != db.camps[k].id
    ensures Get(db, db.camps[i].id, includeSpeakers, false).Ok?
    ensures Get(db, db.camps[i].id, includeSpeakers, false).body.camp == db.camps[i]
  {
    var r := FindCamp(db.camps, db.camps[i].id);
    assert r.Some?;
  }
}
