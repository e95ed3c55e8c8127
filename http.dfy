/**
 * The framework values the controller actions produce: the action results they return
 * (`Ok`, `Created`, `BadRequest`, `Forbid`, `NotFound`), the opaque `Location` link of a
 * `Created` result, and API versions.
 */
module Http {
  import opened Wrappers

  /**
   * `Url.Link(route, values)`: the Location header is kept as the route name and its
   * values, never as text.
   */
  datatype Link = Link(route: string, moniker: string, id: int)

  /** An `IActionResult`, with the body or message it carries. */
  datatype Response<T> =
    | Ok(body: T)
    | Created(location: Link, body: T)
    | BadRequest(message: Option<string>)
    | Forbid
    | NotFound(message: Option<string>)
  {
    /** The HTTP status code each kind of result is sent with. */
    function StatusCode(): (code: int)
      ensures code == 200 <==> Ok?
      ensures code == 201 <==> Created?
      ensures code == 400 <==> BadRequest?
      ensures code == 403 <==> Forbid?
      ensures code == 404 <==> NotFound?
    {
      match this
      case Ok(_) => 200
      case Created(_, _) => 201
      case BadRequest(_) => 400
      case Forbid => 403
      case NotFound(_) => 404
    }
  }

  /** `new ApiVersion(major, minor)`. */
  datatype ApiVersion = ApiVersion(major: nat, minor: nat)

  const V1_0 := ApiVersion(1, 0)
  const V1_1 := ApiVersion(1, 1)
  const V2_0 := ApiVersion(2, 0)
}
