/**
 * SpeakersV2Controller (API version 2.0): it inherits every speaker action and overrides
 * only `GetWithCount`, whose body also carries the server's current time. The routing of a
 * speaker request by API version across the two controllers is here too.
 */
module SpeakersV2 {
  import opened Wrappers
  import opened Http
  import opened Entities
  import opened Speakers
  import Startup

  /** The API versions the controller class declares. */
  const Versions: set<ApiVersion> := {V2_0}

  /** `GetWithCount(moniker, includeTalks)`, version 2.0; `now` is `DateTime.UtcNow`. */
  function GetWithCount<V>(store: SpeakerStore, moniker: string, includeTalks: bool, now: int, toModel: LoadedSpeaker -> V)
    : (r: Response<SpeakerList<V>>)
    reads store
    ensures r.Ok? && r.body.Timed? && r.body.currentTime == now
    ensures r.body.count == |r.body.results| == |Query(store.rows, store.talks, moniker, includeTalks)|
    ensures forall k :: 0 <= k < |r.body.results| ==>
      r.body.results[k] == toModel(Query(store.rows, store.talks, moniker, includeTalks)[k])
  {
    var speakers := Query(store.rows, store.talks, moniker, includeTalks);
    Ok(Timed(now, |speakers|, MapAll(speakers, toModel)))
  }

  /** The speaker actions a request can name. */
  datatype SpeakersAction = List | GetById | Create | Update | Remove

  /** The action bodies that exist: three list variants and the shared base actions. */
  datatype Handler = ListBare | ListCounted | ListTimed | BaseGet | BasePost | BasePut | BaseDelete

  /** The base action every version maps a non-list request to. */
  function BaseHandler(a: SpeakersAction): Handler
    requires !a.List?
  {
    match a
    case GetById => BaseGet
    case Create => BasePost
    case Update => BasePut
    case Remove => BaseDelete
  }

  /**
   * The action a request of version `v` reaches: the 1.0 list, the 1.1 list, the 2.0 override,
   * or an inherited base action; `None` when neither controller declares `v`.
   */
  function Route(v: ApiVersion, a: SpeakersAction): (h: Option<Handler>)
    ensures h.Some? <==> v in Speakers.Versions + Versions
    ensures h.Some? && a.List? ==> (h.value == ListBare <==> v == V1_0)
    ensures h.Some? && a.List? ==> (h.value == ListCounted <==> v == V1_1)
    ensures h.Some? && a.List? ==> (h.value == ListTimed <==> v == V2_0)
    ensures h.Some? && !a.List? ==> h.value == BaseHandler(a)
  {
    if v == V1_0 then Some(if a.List? then ListBare else BaseHandler(a))
    else if v == V1_1 then Some(if a.List? then ListCounted else BaseHandler(a))
    else if v == V2_0 then Some(if a.List? then ListTimed else BaseHandler(a))
    else None
  }

  /** Only the list action differs between versions: every other action is the base one under all three. */
  lemma OnlyListIsOverridden(a: SpeakersAction)
    requires !a.List?
    ensures Route(V2_0, a) == Route(V1_1, a) == Route(V1_0, a) == Some(BaseHandler(a))
  {
  }

  /**
   * `GET api/camps/{moniker}/speakers` with the `ver` header `header`: the version selected by
   * the API-versioning options, then the list action that version routes to. `None` when no
   * controller declares the version. `v1Model` and `v2Model` are the two controllers' mappings.
   */
  function ListSpeakers<V>(store: SpeakerStore, header: Option<ApiVersion>, moniker: string, includeTalks: bool,
                           now: int, v1Model: LoadedSpeaker -> V, v2Model: LoadedSpeaker -> V)
    : (r: Option<Response<SpeakerList<V>>>)
    reads store
    ensures r.Some? <==> Route(Startup.RequestedVersion(header), List).Some?
    ensures r.Some? ==> r.value.Ok?
    ensures r.Some? && r.value.body.Counted? ==> r.value.body.count == |r.value.body.results|
    ensures r.Some? && r.value.body.Timed? ==> r.value.body.count == |r.value.body.results| && r.value.body.currentTime == now
  {
    match Route(Startup.RequestedVersion(header), List)
    case None => None
    case Some(h) =>
      if h == ListBare then Some(store.GetList(moniker, includeTalks, v1Model))
      else if h == ListCounted then Some(store.GetWithCount(moniker, includeTalks, v1Model))
      else Some(GetWithCount(store, moniker, includeTalks, now, v2Model))
  }

  /** Without a `ver` header the list comes back as `{count, results}`, `count` being the number of results. */
  lemma NoHeaderListIsCounted<V>(store: SpeakerStore, moniker: string, includeTalks: bool, now: int,
                                 v1Model: LoadedSpeaker -> V, v2Model: LoadedSpeaker -> V)
    ensures var r := ListSpeakers(store, None, moniker, includeTalks, now, v1Model, v2Model);
      && r.Some? && r.value.Ok? && r.value.body.Counted?
      && r.value.body.count == |r.value.body.results| == |Query(store.rows, store.talks, moniker, includeTalks)|
  {
  }

  /** Under each declared version the list takes that version's shape. */
  lemma ListShapePerVersion<V>(store: SpeakerStore, v: ApiVersion, moniker: string, includeTalks: bool, now: int,
                               v1Model: LoadedSpeaker -> V, v2Model: LoadedSpeaker -> V)
    ensures var r := ListSpeakers(store, Some(v), moniker, includeTalks, now, v1Model, v2Model);
      && (v == V1_0 ==> r.Some? && r.value.body.Bare?)
      && (v == V1_1 ==> r.Some? && r.value.body.Counted?)
      && (v == V2_0 ==> r.Some? && r.value.body.Timed?)
      && (v !in {V1_0, V1_1, V2_0} ==> r.None?)
  {
  }
}
