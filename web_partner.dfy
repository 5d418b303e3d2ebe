/**
 * The HTTP boundary of the partner API: validating the query of a search,
 * turning it into search options, and choosing the response status and
 * body of both endpoints. Writing the response is not modelled; a handler
 * here yields the status and what it would write.
 */
module Web {
  import opened Wrappers
  import opened Entities
  import Domain

  /** A decoded query string: each key with its values, in order. */
  type Values = map<string, seq<string>>

  /** A float parser: the number a text denotes, or `None` when it is malformed. */
  type ParseFloat = string -> Option<real>

  /** The materials a search may ask for. */
  const Materials: seq<string> := ["wood", "carpet", "tiles"]

  const MethodGet := "GET"
  const StatusOK := 200
  const StatusBadRequest := 400
  const StatusNotFound := 404
  const StatusMethodNotAllowed := 405
  const StatusInternalServerError := 500

  /** The key occurs in the query, possibly with an empty value. */
  predicate Has(params: Values, key: string)
  {
    key in params
  }

  /** The first value of the key, or "" when it is absent or has no value. */
  function Get(params: Values, key: string): string
  {
    if key in params && |params[key]| > 0 then params[key][0] else ""
  }

  /** The two kinds of error the validation reports, each naming a parameter. */
  datatype ArgumentError = MissingArgument(name: string) | InvalidInput(name: string)

  /** The error text `ErrMissingArgument` and `ErrInvalidInput` format. */
  function Message(e: ArgumentError): string
  {
    match e
    case MissingArgument(name) => "parameter " + name + " missing"
    case InvalidInput(name) => "invalid input for parameter " + name
  }

  /** What a handler writes: a text, a list of partners or one partner. */
  datatype Body = Text(text: string) | PartnerList(partners: seq<Partner>) | OnePartner(partner: Partner)

  datatype Response = Response(status: int, body: Body)

  /** `strings.TrimPrefix`: `s` without `prefix`, or `s` itself when it does not start with it. */
  function TrimPrefix(s: string, prefix: string): (r: string)
    ensures prefix <= s ==> s == prefix + r
    ensures !(prefix <= s) ==> r == s
  {
    if prefix <= s then s[|prefix|..] else s
  }

  /** Whether `a` is one of `list`, scanning from the front. */
  method StringInSlice(a: string, list: seq<string>) returns (found: bool)
    ensures found <==> a in list
  {
    for i := 0 to |list|
      invariant a !in list[..i]
    {
      if list[i] == a {
        return true;
      }
    }
    return false;
  }

  /**
   * The request checks in their fixed order, as written: material present
   * and allowed, long present, parsable and in range (then parsed once more),
   * lat present, parsable and in range. `None` means the request is valid.
   */
  function ValidateGetPartnersRequest(params: Values, parse: ParseFloat): Option<ArgumentError>
  {
    if !Has(params, "material") then Some(MissingArgument("material"))
    else if Get(params, "material") !in Materials then Some(InvalidInput("material"))
    else if !Has(params, "long") then Some(MissingArgument("long"))
    else if parse(Get(params, "long")).None? || parse(Get(params, "long")).value < -180.0 ||
      parse(Get(params, "long")).value > 180.0 then Some(InvalidInput("long"))
    else if parse(Get(params, "long")).None? then Some(InvalidInput("long"))
    else if !Has(params, "lat") then Some(MissingArgument("lat"))
    else if parse(Get(params, "lat")).None? || parse(Get(params, "lat")).value < -90.0 ||
      parse(Get(params, "lat")).value > 90.0 then Some(InvalidInput("lat"))
    else None
  }

  /** A parsed coordinate within the closed interval [lo, hi]. */
  predicate InBounds(v: Option<real>, lo: real, hi: real)
  {
    v.Some? && lo <= v.value <= hi
  }

  /**
   * The validation written as a table: each check that must hold paired
   * with the error reported when it does not, in the order they are made.
   */
  function Checks(params: Values, parse: ParseFloat): seq<(bool, ArgumentError)>
  {
    [ (Has(params, "material"), MissingArgument("material")),
      (Get(params, "material") in Materials, InvalidInput("material")),
      (Has(params, "long"), MissingArgument("long")),
      (InBounds(parse(Get(params, "long")), -180.0, 180.0), InvalidInput("long")),
      (Has(params, "lat"), MissingArgument("lat")),
      (InBounds(parse(Get(params, "lat")), -90.0, 90.0), InvalidInput("lat")) ]
  }

  /** The error of the first check that fails, if any. */
  function FirstFailure(checks: seq<(bool, ArgumentError)>): (r: Option<ArgumentError>)
    ensures r.None? <==> forall i :: 0 <= i < |checks| ==> checks[i].0
    ensures r.Some? ==> exists i :: 0 <= i < |checks| && !checks[i].0 && r.value == checks[i].1 &&
                                   (forall j :: 0 <= j < i ==> checks[j].0)
  {
    if checks == [] then None
    else if !checks[0].0 then Some(checks[0].1)
    else
      var r := FirstFailure(checks[1..]);
      assert forall i :: 1 <= i < |checks| ==> checks[i] == checks[1..][i - 1];
      if r.Some? then
        assert exists i :: 1 <= i < |checks| && !checks[i].0 && r.value == checks[i].1 &&
                           (forall j :: 0 <= j < i ==> checks[j].0) by {
          var i :| 0 <= i < |checks[1..]| && !checks[1..][i].0 && r.value == checks[1..][i].1 &&
            forall j :: 0 <= j < i ==> checks[1..][j].0;
          assert forall j :: 0 <= j < i + 1 ==> checks[j].0 by {
            forall j | 0 <= j < i + 1 ensures checks[j].0 {
              if j > 0 { assert checks[j] == checks[1..][j - 1]; }
            }
          }
        }
        r
      else r
  }

  /**
   * The validation reports the first failing check of the fixed order; in
   * particular the second parse of long, made after the range check on
   * long has passed, never reports anything.
   */
  lemma ValidateReportsFirstFailure(params: Values, parse: ParseFloat)
    ensures ValidateGetPartnersRequest(params, parse) == FirstFailure(Checks(params, parse))
  {
    var c0 := Checks(params, parse);
    var c1, c2, c3 := c0[1..], c0[2..], c0[3..];
    var c4, c5, c6 := c0[4..], c0[5..], c0[6..];
    assert c1[1..] == c2 && c2[1..] == c3 && c3[1..] == c4 && c4[1..] == c5 && c5[1..] == c6 == [];
    assert FirstFailure(c5) == if c5[0].0 then None else Some(c5[0].1);
    assert FirstFailure(c4) == if c4[0].0 then FirstFailure(c5) else Some(c4[0].1);
    assert FirstFailure(c3) == if c3[0].0 then FirstFailure(c4) else Some(c3[0].1);
    assert FirstFailure(c2) == if c2[0].0 then FirstFailure(c3) else Some(c2[0].1);
    assert FirstFailure(c1) == if c1[0].0 then FirstFailure(c2) else Some(c1[0].1);
  }

  /**
   * A request is valid exactly when the material is present and allowed and
   * both coordinates are present, parsable and within their closed ranges.
   */
  lemma ValidRequestExactly(params: Values, parse: ParseFloat)
    ensures ValidateGetPartnersRequest(params, parse).None? <==>
      Has(params, "material") && Get(params, "material") in Materials &&
      Has(params, "long") && InBounds(parse(Get(params, "long")), -180.0, 180.0) &&
      Has(params, "lat") && InBounds(parse(Get(params, "lat")), -90.0, 90.0)
  {
    ValidateReportsFirstFailure(params, parse);
    var c := Checks(params, parse);
    assert (forall i :: 0 <= i < |c| ==> c[i].0) <==>
      c[0].0 && c[1].0 && c[2].0 && c[3].0 && c[4].0 && c[5].0;
  }

  /** A missing-argument text starts with 'p', an invalid-input text with 'i'. */
  lemma MessageStartsWithKind(e: ArgumentError)
    ensures |Message(e)| > 0 && Message(e)[0] == if e.MissingArgument? then 'p' else 'i'
  {
  }

  /** Every error text names its error: no two errors read the same. */
  lemma {:induction false} MessagesIdentifyErrors(e1: ArgumentError, e2: ArgumentError)
    requires Message(e1) == Message(e2)
    ensures e1 == e2
  {
    var m := Message(e1);
    if e1.MissingArgument? != e2.MissingArgument? {
      MessageStartsWithKind(e1);
      MessageStartsWithKind(e2);
      assert false;
    } else if e1.MissingArgument? {
      var p := "parameter ";
      assert e1.name == m[|p|..|m| - |" missing"|];
      assert e2.name == m[|p|..|m| - |" missing"|];
    } else {
      var p := "invalid input for parameter ";
      assert e1.name == m[|p|..];
      assert e2.name == m[|p|..];
    }
  }

  /**
   * The search options from the query: long and lat must parse, and the
   * material is taken as it is. A parse failure is reported as an error.
   */
  function GetPartnersOptsFromQuery(params: Values, parse: ParseFloat): Result<Domain.GetPartnersOpts, string>
  {
    var long := parse(Get(params, "long"));
    if long.None? then Err(Get(params, "long"))
    else
      var lat := parse(Get(params, "lat"));
      if lat.None? then Err(Get(params, "lat"))
      else Ok(Domain.GetPartnersOpts(Get(params, "material"), long.value, lat.value))
  }

  /**
   * A valid request always yields options, and they carry exactly the
   * material, long and lat of the query.
   */
  lemma ValidRequestYieldsOpts(params: Values, parse: ParseFloat)
    requires ValidateGetPartnersRequest(params, parse).None?
    ensures GetPartnersOptsFromQuery(params, parse).Ok?
    ensures var opts := GetPartnersOptsFromQuery(params, parse).value;
      opts.Material == Get(params, "material") && opts.Material in Materials &&
      Some(opts.CustomerAddressLong) == parse(Get(params, "long")) &&
      Some(opts.CustomerAddressLat) == parse(Get(params, "lat")) &&
      -180.0 <= opts.CustomerAddressLong <= 180.0 && -90.0 <= opts.CustomerAddressLat <= 90.0
  {
    ValidRequestExactly(params, parse);
  }

  /**
   * The search endpoint: 405 for anything but GET, 400 with the validation
   * error, 500 when the options cannot be built, and otherwise 200 with
   * what the service returns for the options.
   */
  function GetPartnersHandler(httpMethod: string, params: Values, parse: ParseFloat,
                              getPartners: Domain.GetPartnersOpts -> seq<Partner>): Response
  {
    if httpMethod != MethodGet then Response(StatusMethodNotAllowed, Text("Method not allowed"))
    else
      var err := ValidateGetPartnersRequest(params, parse);
      if err.Some? then Response(StatusBadRequest, Text("Bad request: " + Message(err.value)))
      else
        var opts := GetPartnersOptsFromQuery(params, parse);
        if opts.Err? then Response(StatusInternalServerError, Text("Internal server error"))
        else Response(StatusOK, PartnerList(getPartners(opts.value)))
  }

  /**
   * A GET search answers 400 with "Bad request: " and the error text exactly
   * when validation fails, and otherwise 200 with the service's answer for
   * the query's own material, long and lat; it never answers 500.
   */
  lemma GetPartnersHandlerOutcome(params: Values, parse: ParseFloat,
                                  getPartners: Domain.GetPartnersOpts -> seq<Partner>)
    ensures var resp := GetPartnersHandler(MethodGet, params, parse, getPartners);
      var err := ValidateGetPartnersRequest(params, parse);
      resp.status != StatusInternalServerError &&
      (resp.status == StatusBadRequest <==> err.Some?) &&
      (err.Some? ==> resp.body == Text("Bad request: " + Message(err.value))) &&
      (err.None? ==> resp.status == StatusOK && exists long: real, lat: real ::
        parse(Get(params, "long")) == Some(long) && parse(Get(params, "lat")) == Some(lat) &&
        resp.body == PartnerList(getPartners(Domain.GetPartnersOpts(Get(params, "material"), long, lat))))
  {
    if ValidateGetPartnersRequest(params, parse).None? {
      ValidRequestYieldsOpts(params, parse);
    }
  }

  /**
   * The validation errors for the query strings the handler's tests use,
   * given what the float parser makes of their numbers.
   */
  lemma ValidationExamples(parse: ParseFloat)
    requires parse("80.123") == Some(80.123) && parse("42.125") == Some(42.125)
    requires parse("200") == Some(200.0) && parse("90.134") == Some(90.134)
    requires parse("abc") == None && parse("ab") == None
    ensures ValidateGetPartnersRequest(map[], parse) == Some(MissingArgument("material"))
    ensures ValidateGetPartnersRequest(map["material" := ["dark matter"], "long" := ["80.123"], "lat" := ["42.125"]], parse) ==
      Some(InvalidInput("material"))
    ensures ValidateGetPartnersRequest(map["material" := ["wood"]], parse) == Some(MissingArgument("long"))
    ensures ValidateGetPartnersRequest(map["material" := ["wood"], "long" := ["abc"]], parse) == Some(InvalidInput("long"))
    ensures ValidateGetPartnersRequest(map["material" := ["wood"], "long" := ["200"], "lat" := ["42.125"]], parse) ==
      Some(InvalidInput("long"))
    ensures ValidateGetPartnersRequest(map["material" := ["wood"], "long" := ["80.123"]], parse) == Some(MissingArgument("lat"))
    ensures ValidateGetPartnersRequest(map["material" := ["wood"], "long" := ["80.123"], "lat" := ["ab"]], parse) ==
      Some(InvalidInput("lat"))
    ensures ValidateGetPartnersRequest(map["material" := ["wood"], "long" := ["80.123"], "lat" := ["90.134"]], parse) ==
      Some(InvalidInput("lat"))
    ensures ValidateGetPartnersRequest(map["material" := ["wood"], "long" := ["80.123"], "lat" := ["42.125"]], parse) == None
  {
    assert "dark matter" !in Materials;
    assert "wood" in Materials;
  }

  /**
   * The service is consulted only for a valid request: otherwise the
   * response is the same whatever the service would answer.
   */
  lemma ServiceOnlyForValidRequests(httpMethod: string, params: Values, parse: ParseFloat,
                                    s1: Domain.GetPartnersOpts -> seq<Partner>,
                                    s2: Domain.GetPartnersOpts -> seq<Partner>)
    requires httpMethod != MethodGet || ValidateGetPartnersRequest(params, parse).Some?
    ensures GetPartnersHandler(httpMethod, params, parse, s1) == GetPartnersHandler(httpMethod, params, parse, s2)
  {
  }

  /**
   * The lookup endpoint: 405 for anything but GET; otherwise the id is the
   * path after "/partners/", and the service's answer decides: 404 for
   * `ErrRecordNotExist`, 500 for any other error, 200 with the partner.
   */
  function GetPartnerHandler(httpMethod: string, path: string,
                             getPartner: string -> (Partner, Option<Error>)): Response
  {
    if httpMethod != MethodGet then Response(StatusMethodNotAllowed, Text("Method not allowed"))
    else
      var id := TrimPrefix(path, "/partners/");
      var (partner, err) := getPartner(id);
      if err == Some(ErrRecordNotExist) then Response(StatusNotFound, Text("Not found"))
      else if err.Some? then Response(StatusInternalServerError, Text("Internal server error"))
      else Response(StatusOK, OnePartner(partner))
  }

  /**
   * For "/partners/<id>" the service is asked for exactly <id>, and the
   * status is 404, 500 or 200 exactly as its error is `ErrRecordNotExist`,
   * another error, or none.
   */
  lemma GetPartnerHandlerOutcome(id: string, getPartner: string -> (Partner, Option<Error>))
    ensures var resp := GetPartnerHandler(MethodGet, "/partners/" + id, getPartner);
      var (partner, err) := getPartner(id);
      (resp.status == StatusNotFound <==> err == Some(ErrRecordNotExist)) &&
      (resp.status == StatusInternalServerError <==> err.Some? && err != Some(ErrRecordNotExist)) &&
      (resp.status == StatusOK <==> err.None?) &&
      (err.None? ==> resp.body == OnePartner(partner))
  {
    assert TrimPrefix("/partners/" + id, "/partners/") == id;
  }
}
