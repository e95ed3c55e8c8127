/**
 * SpeakersController (API versions 1.0 and 1.1), the camp-scoped speaker resource.
 *
 * The repository behind it is `SpeakerStore`: the speakers table in table order (the
 * order every query returns), the talks table, the monikers of the existing camps, the
 * user names the user manager knows, and the identity counter that gives the next key.
 * Committing (`SaveAllAsync`) is the `commits` argument of each mutating action: on
 * `true` the staged change becomes the new state, on `false` nothing changes.
 */
module Speakers {
  import opened Wrappers
  import opened Http
  import opened Entities

  const SpeakerGetRoute := "SpeakerGet"
  const NotInCamp := "Speaker not in specified Camp"
  const CampNotFound := "Could not find Camp"
  const CouldNotAdd := "Could not add ne speaker"
  const CampMismatch := "Speaker and Camp do not match"
  const CouldNotUpdate := "Could not update speaker"
  const CouldNotDelete := "Could not delete speaker"

  /** The API versions the controller class declares. */
  const Versions: set<ApiVersion> := {V1_0, V1_1}

  /**
   * The mapper, as three functions the model does not look into: a new entity from a
   * wire model, a wire model written onto an existing entity, and an entity to a wire model.
   */
  datatype Mapper<!M, V> = Mapper(
    fromModel: M -> Speaker,
    merge: (M, Speaker) -> Speaker,
    toModel: LoadedSpeaker -> V)

  /**
   * The body of a speaker list, per response shape: a bare array (1.0), `{count, results}`
   * (1.1), `{currentTime, count, results}` (2.0).
   */
  datatype SpeakerList<V> =
    | Bare(items: seq<V>)
    | Counted(count: int, results: seq<V>)
    | Timed(currentTime: int, count: int, results: seq<V>)

  /** The primary key: no two rows share an id. */
  ghost predicate UniqueIds(rows: seq<Row>) {
    forall i, j :: 0 <= i < |rows| && 0 <= j < |rows| && i != j ==> rows[i].id != rows[j].id
  }

  /** The position of the row with key `id`, if any (the first one). */
  function IndexOf(rows: seq<Row>, id: int): (r: Option<nat>)
    ensures r.Some? ==> r.value < |rows| && rows[r.value].id == id
    ensures r.Some? ==> forall j :: 0 <= j < r.value ==> rows[j].id != id
    ensures r.None? <==> forall j :: 0 <= j < |rows| ==> rows[j].id != id
  {
    if rows == [] then None
    else if rows[0].id == id then Some(0)
    else
      match IndexOf(rows[1..], id)
      case None => None
      case Some(i) => Some(i + 1)
  }

  /** The speaker stored under key `id`. */
  function SpeakerAt(rows: seq<Row>, id: int): (r: Option<Speaker>)
    ensures r.Some? <==> exists i :: 0 <= i < |rows| && rows[i].id == id
    ensures r.Some? ==> Row(id, r.value) in rows
  {
    match IndexOf(rows, id)
    case None => None
    case Some(i) => Some(rows[i].speaker)
  }

  /** The talks whose foreign key is `speakerId`, in table order. */
  function TalksOf(talks: seq<Talk>, speakerId: int): (r: seq<Talk>)
    ensures forall t :: t in r <==> t in talks && t.speakerId == speakerId
  {
    if talks == [] then []
    else (if talks[0].speakerId == speakerId then [talks[0]] else []) + TalksOf(talks[1..], speakerId)
  }

  /** A row as a query returns it, with or without its talks. */
  function Load(row: Row, talks: seq<Talk>, includeTalks: bool): LoadedSpeaker {
    LoadedSpeaker(row.id, row.speaker, if includeTalks then Some(TalksOf(talks, row.id)) else None)
  }

  /**
   * `GetSpeakersByMoniker` / `GetSpeakersByMonikerWithTalks`: the speakers of the camp with
   * that moniker, in table order.
   */
  function Query(rows: seq<Row>, talks: seq<Talk>, moniker: string, includeTalks: bool): (r: seq<LoadedSpeaker>)
    ensures |r| <= |rows|
    ensures forall k :: 0 <= k < |r| ==> r[k].speaker.camp == moniker && (r[k].talks.Some? <==> includeTalks)
  {
    if rows == [] then []
    else
      (if rows[0].speaker.camp == moniker then [Load(rows[0], talks, includeTalks)] else [])
      + Query(rows[1..], talks, moniker, includeTalks)
  }

  /** A speaker is in the query's result exactly when a row of that camp loads to it. */
  lemma {:induction false} QueryMembers(rows: seq<Row>, talks: seq<Talk>, moniker: string, includeTalks: bool, x: LoadedSpeaker)
    ensures x in Query(rows, talks, moniker, includeTalks)
        <==> exists i :: 0 <= i < |rows| && rows[i].speaker.camp == moniker && x == Load(rows[i], talks, includeTalks)
  {
    if rows != [] {
      QueryMembers(rows[1..], talks, moniker, includeTalks, x);
      if x in Query(rows[1..], talks, moniker, includeTalks) {
        var i :| 0 <= i < |rows[1..]| && rows[1..][i].speaker.camp == moniker && x == Load(rows[1..][i], talks, includeTalks);
        assert rows[i + 1] == rows[1..][i];
      }
      if exists i :: 0 <= i < |rows| && rows[i].speaker.camp == moniker && x == Load(rows[i], talks, includeTalks) {
        var i :| 0 <= i < |rows| && rows[i].speaker.camp == moniker && x == Load(rows[i], talks, includeTalks);
        if i > 0 {
          assert rows[1..][i - 1] == rows[i];
        }
      }
    }
  }

  /** `Mapper.Map<IEnumerable<…>>(speakers)`: one wire model per speaker, in order. */
  function MapAll<V>(speakers: seq<LoadedSpeaker>, toModel: LoadedSpeaker -> V): (r: seq<V>)
    ensures |r| == |speakers|
  {
    seq(|speakers|, k requires 0 <= k < |speakers| => toModel(speakers[k]))
  }

  /** The rows without the one at position `k`. */
  function Remove(rows: seq<Row>, k: nat): (r: seq<Row>)
    requires k < |rows|
    ensures |r| == |rows| - 1
    ensures forall j :: 0 <= j < |r| ==> r[j] == if j < k then rows[j] else rows[j + 1]
  {
    rows[..k] + rows[k + 1..]
  }

  /** Under the primary key, `SpeakerAt` finds the row at any position by its key. */
  lemma SpeakerAtIndex(rows: seq<Row>, i: nat)
    requires UniqueIds(rows) && i < |rows|
    ensures SpeakerAt(rows, rows[i].id) == Some(rows[i].speaker)
  {
    var r := IndexOf(rows, rows[i].id);
    assert r.Some? by {
      assert rows[i].id == rows[i].id;
    }
  }

  /** Removing the row at `k` removes its key and keeps every other key's speaker. */
  lemma RemoveKeepsOthers(rows: seq<Row>, k: nat)
    requires UniqueIds(rows) && k < |rows|
    ensures UniqueIds(Remove(rows, k))
    ensures SpeakerAt(Remove(rows, k), rows[k].id).None?
    ensures forall other :: other != rows[k].id ==> SpeakerAt(Remove(rows, k), other) == SpeakerAt(rows, other)
  {
    var r := Remove(rows, k);
    assert UniqueIds(r) by {
      forall i, j | 0 <= i < |r| && 0 <= j < |r| && i != j
        ensures r[i].id != r[j].id
      {
        var i' := if i < k then i else i + 1;
        var j' := if j < k then j else j + 1;
        assert r[i] == rows[i'] && r[j] == rows[j'];
      }
    }
    forall other | other != rows[k].id
      ensures SpeakerAt(r, other) == SpeakerAt(rows, other)
    {
      if SpeakerAt(rows, other).Some? {
        var i :| 0 <= i < |rows| && rows[i].id == other;
        assert i != k;
        var i' := if i < k then i else i - 1;
        assert r[i'] == rows[i];
        SpeakerAtIndex(rows, i);
        SpeakerAtIndex(r, i');
      }
    }
  }

  /** Writing a new speaker under the key at `k` changes that key's speaker and no other. */
  lemma ReplaceKeepsOthers(rows: seq<Row>, k: nat, s: Speaker)
    requires UniqueIds(rows) && k < |rows|
    ensures UniqueIds(rows[k := Row(rows[k].id, s)])
    ensures SpeakerAt(rows[k := Row(rows[k].id, s)], rows[k].id) == Some(s)
    ensures forall other :: other != rows[k].id ==>
      SpeakerAt(rows[k := Row(rows[k].id, s)], other) == SpeakerAt(rows, other)
  {
    var r := rows[k := Row(rows[k].id, s)];
    assert forall j :: 0 <= j < |r| ==> r[j].id == rows[j].id;
    SpeakerAtIndex(r, k);
    forall other | other != rows[k].id
      ensures SpeakerAt(r, other) == SpeakerAt(rows, other)
    {
      if SpeakerAt(rows, other).Some? {
        var i :| 0 <= i < |rows| && rows[i].id == other;
        assert r[i] == rows[i];
        SpeakerAtIndex(rows, i);
        SpeakerAtIndex(r, i);
      }
    }
  }

  /** Appending a row whose key is above every stored key adds that key and keeps the rest. */
  lemma AppendKeepsOthers(rows: seq<Row>, row: Row)
    requires UniqueIds(rows)
    requires forall i :: 0 <= i < |rows| ==> rows[i].id < row.id
    ensures UniqueIds(rows + [row])
    ensures SpeakerAt(rows + [row], row.id) == Some(row.speaker)
    ensures forall other :: other != row.id ==> SpeakerAt(rows + [row], other) == SpeakerAt(rows, other)
  {
    var r := rows + [row];
    assert forall j :: 0 <= j < |rows| ==> r[j] == rows[j];
    SpeakerAtIndex(r, |rows|);
    forall other | other != row.id
      ensures SpeakerAt(r, other) == SpeakerAt(rows, other)
    {
      if SpeakerAt(rows, other).Some? {
        var i :| 0 <= i < |rows| && rows[i].id == other;
        SpeakerAtIndex(rows, i);
        SpeakerAtIndex(r, i);
      }
    }
  }

  class SpeakerStore {
    var rows: seq<Row>
    var talks: seq<Talk>
    var camps: set<string>
    var users: set<string>
    var nextId: int

    /** The table's key is unique and the identity counter is above every key handed out. */
    ghost predicate Valid()
      reads this
    {
      UniqueIds(rows) && forall i :: 0 <= i < |rows| ==> rows[i].id < nextId
    }

    constructor (rows: seq<Row>, talks: seq<Talk>, camps: set<string>, users: set<string>, nextId: int)
      requires UniqueIds(rows) && forall i :: 0 <= i < |rows| ==> rows[i].id < nextId
      ensures Valid()
      ensures this.rows == rows && this.talks == talks && this.camps == camps
      ensures this.users == users && this.nextId == nextId
    {
      this.rows := rows;
      this.talks := talks;
      this.camps := camps;
      this.users := users;
      this.nextId := nextId;
    }

    /** `GetSpeaker(id)` / `GetSpeakerWithTalks(id)`. */
    function GetSpeaker(id: int, includeTalks: bool): (r: Option<LoadedSpeaker>)
      reads this
      ensures r.Some? <==> SpeakerAt(rows, id).Some?
      ensures r.Some? ==> r.value.id == id && Some(r.value.speaker) == SpeakerAt(rows, id)
      ensures r.Some? ==> r.value.talks == if includeTalks then Some(TalksOf(talks, id)) else None
    {
      match IndexOf(rows, id)
      case None => None
      case Some(i) => Some(Load(rows[i], talks, includeTalks))
    }

    /** `Get(moniker, includeTalks)`, version 1.0: the camp's speakers as a bare list. */
    function GetList<V>(moniker: string, includeTalks: bool, toModel: LoadedSpeaker -> V): (r: Response<SpeakerList<V>>)
      reads this
      ensures r.Ok? && r.body.Bare?
      ensures |r.body.items| == |Query(rows, talks, moniker, includeTalks)|
      ensures forall k :: 0 <= k < |r.body.items| ==>
        r.body.items[k] == toModel(Query(rows, talks, moniker, includeTalks)[k])
    {
      Ok(Bare(MapAll(Query(rows, talks, moniker, includeTalks), toModel)))
    }

    /** `GetWithCount(moniker, includeTalks)`, version 1.1: `{count, results}`. */
    function GetWithCount<V>(moniker: string, includeTalks: bool, toModel: LoadedSpeaker -> V): (r: Response<SpeakerList<V>>)
      reads this
      ensures r.Ok? && r.body.Counted?
      ensures r.body.count == |r.body.results| == |Query(rows, talks, moniker, includeTalks)|
      ensures forall k :: 0 <= k < |r.body.results| ==>
        r.body.results[k] == toModel(Query(rows, talks, moniker, includeTalks)[k])
    {
      var speakers := Query(rows, talks, moniker, includeTalks);
      Ok(Counted(|speakers|, MapAll(speakers, toModel)))
    }

    /**
     * `Get(moniker, id, includeTalks)` as written: the result for a speaker of another camp
     * is built and dropped, so any stored speaker comes back with 200.
     */
    function Get<V>(moniker: string, id: int, includeTalks: bool, toModel: LoadedSpeaker -> V): (r: Response<V>)
      reads this
      ensures r.NotFound? <==> SpeakerAt(rows, id).None?
      ensures r.NotFound? ==> r.message == None
      ensures !r.NotFound? ==> GetSpeaker(id, includeTalks).Some? && r == Ok(toModel(GetSpeaker(id, includeTalks).value))
    {
      var speaker := GetSpeaker(id, includeTalks);
      if speaker.None? then NotFound(None)
      else Ok(toModel(speaker.value))
    }

    /** `Get(moniker, id, includeTalks)` with the mismatch result returned, as the path intends. */
    function GetChecked<V>(moniker: string, id: int, includeTalks: bool, toModel: LoadedSpeaker -> V): (r: Response<V>)
      reads this
      ensures r.NotFound? <==> SpeakerAt(rows, id).None?
      ensures r.BadRequest? <==> SpeakerAt(rows, id).Some? && SpeakerAt(rows, id).value.camp != moniker
      ensures r.BadRequest? ==> r.message == Some(NotInCamp)
      ensures r.Ok? <==> SpeakerAt(rows, id).Some? && SpeakerAt(rows, id).value.camp == moniker
      ensures r.Ok? ==> GetSpeaker(id, includeTalks).Some? && r.body == toModel(GetSpeaker(id, includeTalks).value)
    {
      var speaker := GetSpeaker(id, includeTalks);
      if speaker.None? then NotFound(None)
      else if speaker.value.speaker.camp != moniker then BadRequest(Some(NotInCamp))
      else Ok(toModel(speaker.value))
    }

    /**
     * `Post(moniker, model)` by the caller `caller`: the camp must exist and the caller must
     * be a known user; the new speaker belongs to that camp and that user. `throws` is a fault
     * of the camp lookup, which the action's catch turns into its closing 400.
     */
    method Post<M, V>(moniker: string, model: M, caller: string, mapper: Mapper<M, V>, throws: bool, commits: bool)
      returns (r: Response<V>)
      requires Valid()
      modifies this
      ensures Valid()
      ensures talks == old(talks) && camps == old(camps) && users == old(users)
      ensures throws ==> r == BadRequest(Some(CouldNotAdd))
      ensures !throws && moniker !in camps ==> r == BadRequest(Some(CampNotFound))
      ensures moniker in camps && (caller !in users || !commits) ==> r == BadRequest(Some(CouldNotAdd))
      ensures r.BadRequest? ==> rows == old(rows) && nextId == old(nextId)
      ensures !throws && moniker in camps && caller in users && commits ==>
        var row := Row(old(nextId), mapper.fromModel(model).(camp := moniker, user := caller));
        && rows == old(rows) + [row]
        && nextId == old(nextId) + 1
        && r == Created(Link(SpeakerGetRoute, moniker, row.id), mapper.toModel(LoadedSpeaker(row.id, row.speaker, None)))
      ensures r.Created? ==> (SpeakerAt(rows, r.location.id).Some?
        && SpeakerAt(rows, r.location.id).value.camp == moniker
        && SpeakerAt(rows, r.location.id).value.user == caller
        && SpeakerAt(old(rows), r.location.id).None?
        && forall other :: other != r.location.id ==> SpeakerAt(rows, other) == SpeakerAt(old(rows), other))
    {
      if throws {
        return BadRequest(Some(CouldNotAdd));
      }
      if moniker !in camps {
        return BadRequest(Some(CampNotFound));
      }
      var speaker := mapper.fromModel(model);
      speaker := speaker.(camp := moniker);
      if caller in users {
        speaker := speaker.(user := caller);
        var row := Row(nextId, speaker);
        var staged := rows + [row];
        if commits {
          AppendKeepsOthers(rows, row);
          assert SpeakerAt(rows, row.id).None?;
          rows := staged;
          nextId := nextId + 1;
          return Created(Link(SpeakerGetRoute, moniker, row.id), mapper.toModel(LoadedSpeaker(row.id, speaker, None)));
        }
      }
      return BadRequest(Some(CouldNotAdd));
    }

    /**
     * `Put(moniker, id, model)` by `caller`. Checks, in order: the speaker exists, it belongs
     * to the path's camp, the caller owns it; then the model is written onto it. `throws` is a
     * fault of the speaker lookup, which the action's catch turns into its closing 400.
     */
    method Put<M, V>(moniker: string, id: int, model: M, caller: string, mapper: Mapper<M, V>, throws: bool, commits: bool)
      returns (r: Response<V>)
      requires Valid()
      modifies this
      ensures Valid()
      ensures talks == old(talks) && camps == old(camps) && users == old(users) && nextId == old(nextId)
      ensures throws ==> r == BadRequest(Some(CouldNotUpdate))
      ensures !throws ==> var s := SpeakerAt(old(rows), id);
        && (s.None? ==> r == NotFound(None))
        && (s.Some? && s.value.camp != moniker ==> r == BadRequest(Some(CampMismatch)))
        && (s.Some? && s.value.camp == moniker && s.value.user != caller ==> r == Forbid)
        && (s.Some? && s.value.camp == moniker && s.value.user == caller ==>
              r == if commits then Ok(mapper.toModel(LoadedSpeaker(id, mapper.merge(model, s.value), None)))
                   else BadRequest(Some(CouldNotUpdate)))
      ensures !r.Ok? ==> rows == old(rows)
      ensures r.Ok? ==> (IndexOf(old(rows), id).Some? && SpeakerAt(old(rows), id).Some?
        && rows == old(rows)[IndexOf(old(rows), id).value := Row(id, mapper.merge(model, SpeakerAt(old(rows), id).value))])
      ensures r.Ok? ==> (SpeakerAt(old(rows), id).Some?
        && SpeakerAt(rows, id) == Some(mapper.merge(model, SpeakerAt(old(rows), id).value))
        && forall other :: other != id ==> SpeakerAt(rows, other) == SpeakerAt(old(rows), other))
    {
      if throws {
        return BadRequest(Some(CouldNotUpdate));
      }
      var found := GetSpeaker(id, false);
      if found.None? {
        return NotFound(None);
      }
      var speaker := found.value.speaker;
      if speaker.camp != moniker {
        return BadRequest(Some(CampMismatch));
      }
      if speaker.user != caller {
        return Forbid;
      }
      speaker := mapper.merge(model, speaker);
      var k := IndexOf(rows, id).value;
      var staged := rows[k := Row(id, speaker)];
      if commits {
        ReplaceKeepsOthers(rows, k, speaker);
        rows := staged;
        return Ok(mapper.toModel(LoadedSpeaker(id, speaker, None)));
      }
      return BadRequest(Some(CouldNotUpdate));
    }

    /**
     * `Delete(moniker, id)` by `caller`: the same checks in the same order as `Put`, then the
     * row is removed. `throws` is a fault of the speaker lookup, as in `Put`.
     */
    method Delete(moniker: string, id: int, caller: string, throws: bool, commits: bool) returns (r: Response<()>)
      requires Valid()
      modifies this
      ensures Valid()
      ensures talks == old(talks) && camps == old(camps) && users == old(users) && nextId == old(nextId)
      ensures throws ==> r == BadRequest(Some(CouldNotDelete))
      ensures !throws ==> var s := SpeakerAt(old(rows), id);
        && (s.None? ==> r == NotFound(None))
        && (s.Some? && s.value.camp != moniker ==> r == BadRequest(Some(CampMismatch)))
        && (s.Some? && s.value.camp == moniker && s.value.user != caller ==> r == Forbid)
        && (s.Some? && s.value.camp == moniker && s.value.user == caller ==>
              r == if commits then Ok(()) else BadRequest(Some(CouldNotDelete)))
      ensures !r.Ok? ==> rows == old(rows)
      ensures r.Ok? ==> IndexOf(old(rows), id).Some? && rows == Remove(old(rows), IndexOf(old(rows), id).value)
      ensures r.Ok? ==> (SpeakerAt(rows, id).None?
        && forall other :: other != id ==> SpeakerAt(rows, other) == SpeakerAt(old(rows), other))
    {
      if throws {
        return BadRequest(Some(CouldNotDelete));
      }
      var found := GetSpeaker(id, false);
      if found.None? {
        return NotFound(None);
      }
      var speaker := found.value.speaker;
      if speaker.camp != moniker {
        return BadRequest(Some(CampMismatch));
      }
      if speaker.user != caller {
        return Forbid;
      }
      var k := IndexOf(rows, id).value;
      var staged := Remove(rows, k);
      if commits {
        RemoveKeepsOthers(rows, k);
        rows := staged;
        return Ok(());
      }
      return BadRequest(Some(CouldNotDelete));
    }
  }

  /** A speaker found under another camp's moniker still comes back with 200 from `Get`. */
  lemma GetIgnoresCampMismatch<V>(store: SpeakerStore, moniker: string, id: int, includeTalks: bool, toModel: LoadedSpeaker -> V)
    requires SpeakerAt(store.rows, id).Some? && SpeakerAt(store.rows, id).value.camp != moniker
    ensures store.Get(moniker, id, includeTalks, toModel).Ok?
    ensures store.GetChecked(moniker, id, includeTalks, toModel) == BadRequest(Some(NotInCamp))
  {
  }

  /** Deleting the same speaker twice: the second attempt finds nothing. */
  method DeleteTwice(store: SpeakerStore, moniker: string, id: int, caller: string)
    returns (first: Response<()>, second: Response<()>)
    requires store.Valid()
    modifies store
    ensures first.Ok? ==> second == NotFound(None)
    ensures first.Ok? <==> (SpeakerAt(old(store.rows), id).Some?
      && SpeakerAt(old(store.rows), id).value.camp == moniker
      && SpeakerAt(old(store.rows), id).value.user == caller)
  {
    first := store.Delete(moniker, id, caller, false, true);
    second := store.Delete(moniker, id, caller, false, true);
  }
}
