/** The Subsonic internet-radio endpoints of server/subsonic/radio.go (lines 15-115): parameter
    checks in front of the radio repository, whose answers are inputs. */
module RadioApi {
  import opened Base
  import opened Params

  /** model.Radio, restricted to the fields these handlers read or write. */
  datatype Radio = Radio(id: string, name: string, streamUrl: string, homePageUrl: string)

  /** responses.Radio, one station of `getInternetRadioStations`. */
  datatype RadioEntry = RadioEntry(id: string, name: string, streamUrl: string, homepageUrl: string)

  datatype ApiError = BadParameter(cause: ParamError) | RepositoryError(message: string)

  /** The repository calls a handler makes. */
  datatype RepoCall = Put(radio: Radio) | Delete(id: string) | GetAll(sort: string)

  /** The Subsonic envelope: `newResponse()` alone, or carrying the stations. */
  datatype Response = Plain | Stations(radios: seq<RadioEntry>)

  datatype Handled = Handled(calls: seq<RepoCall>, result: Result<Response, ApiError>)

  function Required(q: QueryParams, name: string): Result<string, ApiError> {
    match StringParam(q, name)
    case Ok(v) => Ok(v)
    case Err(e) => Err(BadParameter(e))
  }

  /** The answer of a `Put` or `Delete`: nil, or the repository's error. */
  function Finish(repoError: Option<string>): Result<Response, ApiError> {
    match repoError
    case None => Ok(Plain)
    case Some(m) => Err(RepositoryError(m))
  }

  /** Store the radio built from the parameters, under `id` ("" for a new one). */
  function Store(q: QueryParams, id: string, streamUrl: string, name: string, putError: Option<string>): Handled {
    Handled([Put(Radio(id, name, streamUrl, OptionalParam(q, "homepageUrl")))], Finish(putError))
  }

  /** `createInternetRadioStation`: `streamUrl` and `name` are required, checked
      in that order; `homepageUrl` is optional. The repository is called only
      when both are present, with a radio that has no id yet. */
  function CreateInternetRadio(q: QueryParams, putError: Option<string>): (r: Handled)
    ensures |r.calls| <= 1
    ensures r.calls != [] <==> Has(q, "streamUrl") && Has(q, "name")
    ensures r.calls != [] ==>
      r.calls[0] == Put(Radio("", q["name"], q["streamUrl"], if Has(q, "homepageUrl") then q["homepageUrl"] else ""))
    ensures r.result == Ok(Plain) <==> Has(q, "streamUrl") && Has(q, "name") && putError.None?
    ensures !Has(q, "streamUrl") ==> r.result == Err(BadParameter(MissingParameter("streamUrl")))
    ensures Has(q, "streamUrl") && !Has(q, "name") ==> r.result == Err(BadParameter(MissingParameter("name")))
    ensures r.calls != [] && putError.Some? ==> r.result == Err(RepositoryError(putError.value))
  {
    match Required(q, "streamUrl")
    case Err(e) => Handled([], Err(e))
    case Ok(streamUrl) =>
      match Required(q, "name")
      case Err(e) => Handled([], Err(e))
      case Ok(name) => Store(q, "", streamUrl, name, putError)
  }

  /** `updateInternetRadioStation`: `id`, `streamUrl` and `name` are required,
      checked in that order; the radio is stored under the given id. */
  function UpdateInternetRadio(q: QueryParams, putError: Option<string>): (r: Handled)
    ensures |r.calls| <= 1
    ensures r.calls != [] <==> Has(q, "id") && Has(q, "streamUrl") && Has(q, "name")
    ensures r.calls != [] ==>
      r.calls[0] == Put(Radio(q["id"], q["name"], q["streamUrl"], if Has(q, "homepageUrl") then q["homepageUrl"] else ""))
    ensures r.result == Ok(Plain) <==> Has(q, "id") && Has(q, "streamUrl") && Has(q, "name") && putError.None?
    ensures !Has(q, "id") ==> r.result == Err(BadParameter(MissingParameter("id")))
    ensures Has(q, "id") && !Has(q, "streamUrl") ==> r.result == Err(BadParameter(MissingParameter("streamUrl")))
    ensures Has(q, "id") && Has(q, "streamUrl") && !Has(q, "name") ==> r.result == Err(BadParameter(MissingParameter("name")))
    ensures r.calls != [] && putError.Some? ==> r.result == Err(RepositoryError(putError.value))
  {
    match Required(q, "id")
    case Err(e) => Handled([], Err(e))
    case Ok(id) =>
      match Required(q, "streamUrl")
      case Err(e) => Handled([], Err(e))
      case Ok(streamUrl) =>
        match Required(q, "name")
        case Err(e) => Handled([], Err(e))
        case Ok(name) => Store(q, id, streamUrl, name, putError)
  }

  /** `deleteInternetRadioStation`: `id` is required; the repository's error, if
      any, is passed through. */
  function DeleteInternetRadio(q: QueryParams, deleteError: Option<string>): (r: Handled)
    ensures r.calls == (if Has(q, "id") then [Delete(q["id"])] else [])
    ensures r.result == Ok(Plain) <==> Has(q, "id") && deleteError.None?
    ensures !Has(q, "id") ==> r.result == Err(BadParameter(MissingParameter("id")))
    ensures Has(q, "id") && deleteError.Some? ==> r.result == Err(RepositoryError(deleteError.value))
  {
    match Required(q, "id")
    case Err(e) => Handled([], Err(e))
    case Ok(id) => Handled([Delete(id)], Finish(deleteError))
  }

  function ToEntry(radio: Radio): RadioEntry {
    RadioEntry(radio.id, radio.name, radio.streamUrl, radio.homePageUrl)
  }

  /** `getInternetRadioStations`: ask the repository for every radio sorted by
      name, and answer one entry per radio, in the repository's order, copying
      id, name, stream URL and homepage URL. */
  function GetInternetRadios(stored: Result<seq<Radio>, string>): (r: Handled)
    ensures r.calls == [GetAll("name")]
    ensures r.result.Ok? <==> stored.Ok?
    ensures stored.Err? ==> r.result == Err(RepositoryError(stored.error))
    ensures stored.Ok? ==>
      && r.result.value.Stations?
      && |r.result.value.radios| == |stored.value|
      && forall i :: 0 <= i < |stored.value| ==>
           var e, g := r.result.value.radios[i], stored.value[i];
           e.id == g.id && e.name == g.name && e.streamUrl == g.streamUrl && e.homepageUrl == g.homePageUrl
  {
    match stored
    case Err(m) => Handled([GetAll("name")], Err(RepositoryError(m)))
    case Ok(radios) =>
      Handled([GetAll("name")], Ok(Stations(seq(|radios|, i requires 0 <= i < |radios| => ToEntry(radios[i])))))
  }

  /** Nothing a station listing shows is lost: two repositories list the same
      stations exactly when they hold radios with the same id, name, stream URL
      and homepage URL, in the same order (the four fields `Radio` keeps). */
  lemma ListingIsFaithful(a: seq<Radio>, b: seq<Radio>)
    ensures GetInternetRadios(Ok(a)) == GetInternetRadios(Ok(b)) <==> a == b
  {
    if GetInternetRadios(Ok(a)) == GetInternetRadios(Ok(b)) {
      var ra, rb := GetInternetRadios(Ok(a)).result.value.radios, GetInternetRadios(Ok(b)).result.value.radios;
      assert |a| == |b|;
      forall i | 0 <= i < |a|
        ensures a[i] == b[i]
      {
        assert ra[i] == rb[i];
      }
    }
  }

  /** Update is Create with an id: given an id, it makes the same checks, stores
      the same radio under that id and answers the same. */
  lemma UpdateIsCreateWithId(q: QueryParams, putError: Option<string>)
    requires Has(q, "id")
    ensures var c, u := CreateInternetRadio(q, putError), UpdateInternetRadio(q, putError);
      && u.result == c.result
      && |u.calls| == |c.calls|
      && (c.calls != [] ==> u.calls[0] == Put(c.calls[0].radio.(id := q["id"])))
  {
  }
}
