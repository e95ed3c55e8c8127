/**
 * The declarative rules of `Startup.ConfigureServices` that decide outcomes: which API
 * version a request is served under, which versions the talks controller and its `Post`
 * action answer to, the status the replaced cookie events set on `/api` paths, and
 * the `SuperUsers` authorization policy.
 */
module Startup {
  import opened Wrappers
  import opened Http
  import opened Text
  import CampIdentity

  /** `DefaultApiVersion`, assumed when a request names no version. */
  const DefaultVersion := V1_1

  /** The version a request is served under, given the parsed value of its `ver` header. */
  function RequestedVersion(header: Option<ApiVersion>): (v: ApiVersion)
    ensures header.None? ==> v == DefaultVersion
    ensures header.Some? ==> v == header.value
  {
    header.GetOr(DefaultVersion)
  }

  /** The versions the talks controller is declared with by convention. */
  const TalksVersions: set<ApiVersion> := {V1_0, V1_1, V2_0}

  /** A talks controller action, as far as the convention tells them apart. */
  datatype TalksAction = TalksPost | TalksOther(name: string)

  /** The versions a talks action answers to: `Post` is mapped to 2.0, the others keep the controller's. */
  function TalksActionVersions(a: TalksAction): (vs: set<ApiVersion>)
    ensures vs <= TalksVersions
  {
    if a.TalksPost? then {V2_0} else TalksVersions
  }

  /** A talks request of version `v` reaches action `a` exactly when `a` answers to `v`. */
  lemma TalksPostOnlyUnderV2(v: ApiVersion, a: TalksAction)
    ensures v in TalksActionVersions(a) <==> (if a.TalksPost? then v == V2_0 else v in {V1_0, V1_1, V2_0})
  {
  }

  const ApiSegment := "/api"

  /** A request path the cookie handlers treat as an API call: `/api` in any letter case, alone or followed by `/`. */
  predicate IsApiPath(path: string): (r: bool)
    ensures r <==> (&& |path| >= 4 && path[0] == '/'
                    && UpperAscii(path[1..4]) == "API"
                    && (|path| == 4 || path[4] == '/'))
  {
    assert UpperAscii(ApiSegment) == "/API";
    assert |path| >= 4 ==> UpperAscii(path[..4]) == [ToUpperAscii(path[0])] + UpperAscii(path[1..4]) by {
      if |path| >= 4 {
        var whole, parts := UpperAscii(path[..4]), [ToUpperAscii(path[0])] + UpperAscii(path[1..4]);
        forall k | 0 <= k < 4
          ensures whole[k] == parts[k]
        {
        }
      }
    }
    StartsWithSegments(path, ApiSegment)
  }

  /**
   * `OnRedirectToLogin`, as replaced in the cookie events: sets 401 on an API call still at
   * 200 and otherwise leaves the response alone; the replaced event issues no redirect.
   */
  function OnRedirectToLogin(path: string, status: int): (r: int)
    ensures IsApiPath(path) && status == 200 ==> r == 401
    ensures r != status ==> IsApiPath(path) && status == 200
  {
    if IsApiPath(path) && status == 200 then 401 else status
  }

  /**
   * `OnRedirectToAccessDenied`, as replaced in the cookie events: sets 403 on an API call
   * still at 200 and otherwise leaves the response alone; the replaced event issues no redirect.
   */
  function OnRedirectToAccessDenied(path: string, status: int): (r: int)
    ensures IsApiPath(path) && status == 200 ==> r == 403
    ensures r != status ==> IsApiPath(path) && status == 200
  {
    if IsApiPath(path) && status == 200 then 403 else status
  }

  /**
   * Every route under `/api/` is an API path, so on such a route the access-denied handler
   * turns a 200 into 403, the status code of a `Forbid` result, and the login handler turns a
   * 200 into 401.
   */
  lemma ForbidOnApiRouteIs403(rest: string)
    requires rest == [] || rest[0] == '/'
    ensures IsApiPath(ApiSegment + rest)
    ensures var forbid: Response<()> := Forbid; OnRedirectToAccessDenied(ApiSegment + rest, 200) == forbid.StatusCode()
    ensures OnRedirectToLogin(ApiSegment + rest, 200) == 401
  {
    SegmentPrefixMatches(ApiSegment, rest);
  }

  /** A path that is not under `/api` keeps its status whatever it is. */
  lemma NonApiPathKeepsStatus(path: string, status: int)
    requires !IsApiPath(path)
    ensures OnRedirectToLogin(path, status) == status && OnRedirectToAccessDenied(path, status) == status
  {
  }

  const SuperUserClaim := "SuperUser"
  const SuperUserValue := "True"

  /**
   * The `SuperUsers` policy, `RequireClaim("SuperUser", "True")`: some claim has that type
   * (compared ignoring case) and exactly that value.
   */
  predicate SuperUsersPolicy(claims: seq<CampIdentity.Claim>): (r: bool)
    ensures r <==> exists c :: c in claims && UpperAscii(c.claimType) == "SUPERUSER" && c.value == "True"
  {
    assert UpperAscii(SuperUserClaim) == "SUPERUSER";
    exists i :: 0 <= i < |claims| && EqualsIgnoreCase(claims[i].claimType, SuperUserClaim) && claims[i].value == SuperUserValue
  }

  /** The policy admits a principal exactly when it holds such a claim; other claims neither help nor hinder. */
  lemma {:induction false} SuperUsersPolicyOnAppend(claims: seq<CampIdentity.Claim>, c: CampIdentity.Claim)
    ensures SuperUsersPolicy(claims + [c])
        <==> SuperUsersPolicy(claims) || (EqualsIgnoreCase(c.claimType, SuperUserClaim) && c.value == SuperUserValue)
  {
    var all := claims + [c];
    if SuperUsersPolicy(all) {
      var i :| 0 <= i < |all| && EqualsIgnoreCase(all[i].claimType, SuperUserClaim) && all[i].value == SuperUserValue;
      if i < |claims| {
        assert all[i] == claims[i];
      }
    }
    if SuperUsersPolicy(claims) {
      var i :| 0 <= i < |claims| && EqualsIgnoreCase(claims[i].claimType, SuperUserClaim) && claims[i].value == SuperUserValue;
      assert all[i] == claims[i];
    }
    if EqualsIgnoreCase(c.claimType, SuperUserClaim) && c.value == SuperUserValue {
      assert all[|claims|] == c;
    }
  }

  /** The account the identity seed creates passes the `SuperUsers` policy. */
  lemma SeededAdminIsSuperUser(s: CampIdentity.Stores, v: CampIdentity.Verdicts)
    requires CampIdentity.SeedUserName !in s.users && CampIdentity.SeedSpec(s, v).1 == CampIdentity.Completed
    ensures var after := CampIdentity.SeedSpec(s, v).0;
      CampIdentity.SeedUserName in after.users && SuperUsersPolicy(after.users[CampIdentity.SeedUserName].claims)
  {
    CampIdentity.SeedEstablishesAdmin(s, v);
    var claims := CampIdentity.SeedSpec(s, v).0.users[CampIdentity.SeedUserName].claims;
    assert claims[0] == CampIdentity.SuperUserClaim;
  }
}
