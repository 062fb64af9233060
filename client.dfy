/** `linodeClient`: a handle bound to one API token. Each method builds one
    request descriptor, the transport answers it with a decoded reply, and the
    shared branch of `Response` turns that reply into the method's outcome. */
module Client {
  import opened Json
  import opened Http
  import opened Body
  import opened Response
  import opened Api
  import Decimal

  const InstancesUrl := ApiRoot + "/linode/instances"

  /** `.../linode/instances/{str(id)}` followed by `rest`. */
  function InstanceUrl(id: int, rest: string): string
  {
    (InstancesUrl + "/") + (Decimal.IntToString(id) + rest)
  }

  /** The client methods that act on one instance, with their arguments.
      `kwargs` is the caller's `**kwargs`, in the order given. */
  datatype Operation =
    | DeleteLinode(linodeID: int)
    | FindLinode(linodeID: int)
    | UpdateLinode(linodeID: int, kwargs: Dict)
    | BootLinode(linodeID: int)
    | RebootLinode(linodeID: int)
    | ResetPassLinode(linodeID: int, password: string)
    | RebuildLinode(linodeID: int, image: string, rootPass: string, kwargs: Dict)
    | ShutDownLinode(linodeID: int)
    | StatisticsLinode(linodeID: int)
    | CloneLinode(linodeID: int, kwargs: Dict)
    | GetBackups(linodeID: int)
    | CancelBackups(linodeID: int)
    | EnableBackups(linodeID: int)
    | FindBackup(linodeID: int, backupID: int)
    | RestoreBackup(linodeID: int, backupID: int)
    | CreateSnapshot(linodeID: int, labelText: string)
    | GetConfigs(linodeID: int)
    | CreateConfig(linodeID: int, devices: Dict, labelText: string, kwargs: Dict)
    | DeleteConfig(linodeID: int, configID: int)
    | FindConfig(linodeID: int, configID: int)
    | UpdateConfig(linodeID: int, configID: int, kwargs: Dict)
    | GetDisks(linodeID: int)
    | CreateDisk(linodeID: int, size: int, kwargs: Dict)

  /** The methods that filter their keyword arguments through `if v:`. */
  predicate Assembles(op: Operation)
  {
    op.RebuildLinode? || op.CreateConfig? || op.CreateDisk?
  }

  /** The methods that send `**kwargs` as the body unchanged. */
  predicate PassesKwargs(op: Operation)
  {
    op.UpdateLinode? || op.CloneLinode? || op.UpdateConfig?
  }

  predicate HasKwargs(op: Operation)
  {
    Assembles(op) || PassesKwargs(op)
  }

  /** The path below `.../instances/{id}`. */
  function Action(op: Operation): (s: string)
    ensures s == "" || s[0] == '/'
  {
    match op
    case DeleteLinode(_) => ""
    case FindLinode(_) => ""
    case UpdateLinode(_, _) => ""
    case BootLinode(_) => "/boot"
    case RebootLinode(_) => "/reboot"
    case ResetPassLinode(_, _) => "/password"
    case RebuildLinode(_, _, _, _) => "/rebuild"
    case ShutDownLinode(_) => "/shutdown"
    case StatisticsLinode(_) => "/stats"
    case CloneLinode(_, _) => "/clone"
    case GetBackups(_) => "/backups"
    case CancelBackups(_) => "/backups/cancel"
    case EnableBackups(_) => "/backups/enable"
    case FindBackup(_, b) => "/backups/" + Decimal.IntToString(b)
    case RestoreBackup(_, b) => "/backups/" + Decimal.IntToString(b) + "/restore"
    case CreateSnapshot(_, _) => "/backups"
    case GetConfigs(_) => "/configs"
    case CreateConfig(_, _, _, _) => "/configs"
    case DeleteConfig(_, c) => "/configs/" + Decimal.IntToString(c)
    case FindConfig(_, c) => "/configs/" + Decimal.IntToString(c)
    case UpdateConfig(_, c, _) => "/configs/" + Decimal.IntToString(c)
    case GetDisks(_) => "/disks"
    case CreateDisk(_, _, _) => "/disks"
  }

  /** The dict a filtering method starts from, before its keyword arguments. */
  function RequiredFields(op: Operation): Dict
    requires Assembles(op)
  {
    match op
    case RebuildLinode(_, image, rootPass, _) => [("image", JStr(image)), ("root_pass", JStr(rootPass))]
    case CreateConfig(_, devices, labelText, _) => [("devices", JObj(devices)), ("label", JStr(labelText))]
    case CreateDisk(_, size, _) => [("size", JInt(size))]
  }

  /** The names a method binds besides `**kwargs`; Python refuses a keyword
      argument that repeats one of them. */
  function ParameterNames(op: Operation): set<string>
  {
    match op
    case RebuildLinode(_, _, _, _) => {"self", "linodeID", "image", "root_pass"}
    case CreateConfig(_, _, _, _) => {"self", "linodeID", "devices", "label"}
    case CreateDisk(_, _, _) => {"self", "linodeID", "size"}
    case UpdateConfig(_, _, _) => {"self", "linodeID", "configID"}
    case _ => {"self", "linodeID"}
  }

  /** The keyword arguments of `op` could have come from a Python call. */
  predicate Bindable(op: Operation)
  {
    HasKwargs(op) ==> DistinctKeys(op.kwargs) && Keys(op.kwargs) !! ParameterNames(op)
  }

  /** Whether the method gives back the decoded reply or `True`. */
  function ReplyOf(op: Operation): Reply
  {
    match op
    case BootLinode(_) => ReplyTrue
    case RebootLinode(_) => ReplyTrue
    case ResetPassLinode(_, _) => ReplyTrue
    case ShutDownLinode(_) => ReplyTrue
    case CancelBackups(_) => ReplyTrue
    case EnableBackups(_) => ReplyTrue
    case RestoreBackup(_, _) => ReplyTrue
    case DeleteConfig(_, _) => ReplyTrue
    case _ => ReplyBody
  }

  /** The `requests` function each method calls. */
  function VerbOf(op: Operation): Verb
  {
    match op
    case DeleteLinode(_) => DELETE
    case FindLinode(_) => GET
    case UpdateLinode(_, _) => PUT
    case StatisticsLinode(_) => GET
    case GetBackups(_) => GET
    case FindBackup(_, _) => GET
    case GetConfigs(_) => GET
    case DeleteConfig(_, _) => DELETE
    case FindConfig(_, _) => GET
    case UpdateConfig(_, _, _) => PUT
    case GetDisks(_) => GET
    case _ => POST
  }

  /** The `json=` argument. */
  function PayloadOf(op: Operation): Option<Json>
  {
    match op
    case UpdateLinode(_, kwargs) => Some(JObj(kwargs))
    case CloneLinode(_, kwargs) => Some(JObj(kwargs))
    case UpdateConfig(_, _, kwargs) => Some(JObj(kwargs))
    case ResetPassLinode(_, password) => Some(JObj([("root_pass", JStr(password))]))
    case CreateSnapshot(_, labelText) => Some(JObj([("label", JStr(labelText))]))
    case RebuildLinode(_, _, _, kwargs) => Some(JObj(Overlay(RequiredFields(op), kwargs)))
    case CreateConfig(_, _, _, kwargs) => Some(JObj(Overlay(RequiredFields(op), kwargs)))
    case CreateDisk(_, _, kwargs) => Some(JObj(Overlay(RequiredFields(op), kwargs)))
    case _ => None
  }

  /** Every required field is named after a parameter of its method, so a
      bindable keyword argument never overwrites one. */
  lemma RequiredFieldsAreParameters(op: Operation)
    requires Assembles(op)
    ensures Keys(RequiredFields(op)) <= ParameterNames(op)
  {
    var fields := RequiredFields(op);
    forall key | key in Keys(fields) ensures key in ParameterNames(op) {
      var i :| 0 <= i < |fields| && fields[i].0 == key;
    }
  }

  /** Everything a call sent, in order, and how it ended. */
  datatype Exchange = Exchange(sent: seq<Request>, outcome: Outcome)

  const RegionMessage := "Region not found or not available."
  const TypeMessage := "Type not found or not available."
  const ImageMessage := "Image not found or not available."

  /** The three catalog checks of `createLinode` on already fetched id lists:
      the first one that fails names the error. */
  function Preflight(region: string, plan: string, image: string,
                     regions: seq<Json>, types: seq<Json>, images: seq<Json>): (r: Option<string>)
    ensures r.None? <==>
      Member(regions, JStr(region)) && Member(types, JStr(plan)) && Member(images, JStr(image))
    ensures r == Some(RegionMessage) <==> !Member(regions, JStr(region))
    ensures r == Some(TypeMessage) <==> Member(regions, JStr(region)) && !Member(types, JStr(plan))
    ensures r == Some(ImageMessage) <==>
      Member(regions, JStr(region)) && Member(types, JStr(plan)) && !Member(images, JStr(image))
  {
    if !Member(regions, JStr(region)) then Some(RegionMessage)
    else if !Member(types, JStr(plan)) then Some(TypeMessage)
    else if !Member(images, JStr(image)) then Some(ImageMessage)
    else None
  }

  /** The body `createLinode` starts from. */
  function CreateFields(region: string, plan: string, image: string, rootPass: string): Dict
  {
    [("image", JStr(image)), ("type", JStr(plan)), ("region", JStr(region)), ("root_pass", JStr(rootPass))]
  }

  /** The names `createLinode` binds besides `**kwargs`. */
  const CreateParameterNames: set<string> := {"self", "region", "type", "image", "root_pass"}

  /** A URL names the instance it acts on: two requests with the same URL
      address the same instance and the same sub-path. */
  lemma InstanceUrlInjective(a: int, ra: string, b: int, rb: string)
    requires ra == "" || ra[0] == '/'
    requires rb == "" || rb[0] == '/'
    requires InstanceUrl(a, ra) == InstanceUrl(b, rb)
    ensures a == b && ra == rb
  {
    var p := InstancesUrl + "/";
    var x, y := Decimal.IntToString(a), Decimal.IntToString(b);
    assert x + ra == (p + (x + ra))[|p|..];
    assert y + rb == (p + (y + rb))[|p|..];
    SegmentBeforeSlash(x, ra, y, rb);
    Decimal.IntToStringInjective(a, b);
  }

  /** The length of the longest prefix of `s` without a `/`. */
  function SegmentLength(s: string): nat
  {
    if s == [] || s[0] == '/' then 0 else 1 + SegmentLength(s[1..])
  }

  lemma {:induction false} SegmentLengthOf(x: string, r: string)
    requires forall k :: 0 <= k < |x| ==> x[k] != '/'
    requires r == "" || r[0] == '/'
    ensures SegmentLength(x + r) == |x|
    decreases |x|
  {
    if x == [] {
      assert x + r == r;
    } else {
      assert (x + r)[1..] == x[1..] + r;
      SegmentLengthOf(x[1..], r);
    }
  }

  /** Two slash-free segments, each followed by nothing or by a `/`-path,
      split a string the same way. */
  lemma SegmentBeforeSlash(x: string, ra: string, y: string, rb: string)
    requires forall k :: 0 <= k < |x| ==> x[k] != '/'
    requires forall k :: 0 <= k < |y| ==> y[k] != '/'
    requires ra == "" || ra[0] == '/'
    requires rb == "" || rb[0] == '/'
    requires x + ra == y + rb
    ensures x == y && ra == rb
  {
    SegmentLengthOf(x, ra);
    SegmentLengthOf(y, rb);
    assert x == (x + ra)[..|x|];
    assert y == (y + rb)[..|y|];
    assert ra == (x + ra)[|x|..];
    assert rb == (y + rb)[|y|..];
  }

  /** Requests for different instances never share a URL. */
  lemma SameUrlSameInstance(op1: Operation, op2: Operation)
    requires InstanceUrl(op1.linodeID, Action(op1)) == InstanceUrl(op2.linodeID, Action(op2))
    ensures op1.linodeID == op2.linodeID && Action(op1) == Action(op2)
  {
    InstanceUrlInjective(op1.linodeID, Action(op1), op2.linodeID, Action(op2));
  }

  /** Within one kind of sub-resource request, the path also names the
      backup or config it acts on. */
  lemma SameActionSameSubResource(op1: Operation, op2: Operation)
    requires Action(op1) == Action(op2)
    requires (op1.FindBackup? && op2.FindBackup?) || (op1.RestoreBackup? && op2.RestoreBackup?) ||
      (op1.DeleteConfig? && op2.DeleteConfig?) || (op1.FindConfig? && op2.FindConfig?) ||
      (op1.UpdateConfig? && op2.UpdateConfig?)
    ensures op1.FindBackup? || op1.RestoreBackup? ==> op1.backupID == op2.backupID
    ensures op1.DeleteConfig? || op1.FindConfig? || op1.UpdateConfig? ==> op1.configID == op2.configID
  {
    if op1.FindBackup? || op1.RestoreBackup? {
      var p := "/backups/";
      var x, y := Decimal.IntToString(op1.backupID), Decimal.IntToString(op2.backupID);
      if op1.FindBackup? {
        assert x == (p + x)[|p|..];
        assert y == (p + y)[|p|..];
      } else {
        var q := "/restore";
        assert x + q == (p + x + q)[|p|..];
        assert y + q == (p + y + q)[|p|..];
        SegmentBeforeSlash(x, q, y, q);
      }
      Decimal.IntToStringInjective(op1.backupID, op2.backupID);
    } else {
      var p := "/configs/";
      var x, y := Decimal.IntToString(op1.configID), Decimal.IntToString(op2.configID);
      assert x == (p + x)[|p|..];
      assert y == (p + y)[|p|..];
      Decimal.IntToStringInjective(op1.configID, op2.configID);
    }
  }

  /** Without an `errors` key, the methods written to `return True` give
      `True` whatever the reply holds, and the others give the reply back
      unchanged. */
  lemma ReplyWithoutErrors(op: Operation, reply: Json)
    requires Contains(reply, "errors") == Success(false)
    ensures Handled(reply, ReplyOf(op)) ==
      if op.BootLinode? || op.RebootLinode? || op.ResetPassLinode? || op.ShutDownLinode? ||
         op.CancelBackups? || op.EnableBackups? || op.RestoreBackup? || op.DeleteConfig?
      then Return(JBool(true))
      else Return(reply)
  {
  }

  /** The exceptions the reply branch can raise come from `in`, indexing,
      iteration and `str.join`: each is a `TypeError` or a `KeyError`, never a
      `ValueError`. */
  lemma HandledRaisesNoValueError(body: Json, reply: Reply)
    ensures Handled(body, reply).Raise? ==>
      Handled(body, reply).error == TypeError || Handled(body, reply).error.KeyError?
  {
    var errs := GetItem(body, "errors");
    if errs.Success? {
      var items := Iterate(errs.value);
      if items.Success? {
        var fe := Extract.FieldOfEach(items.value, "reason");
        if fe.Failure? {
          Extract.FieldOfEachFails(items.value, "reason");
        }
      }
    }
  }

  /** One pre-flight check of `createLinode`: read the ids of a catalog
      reply, then test `value in ids`. `None` means the check passed. */
  function CatalogCheck(catalogReply: Json, value: string, message: string): Option<Exception>
  {
    var ids := Ids(catalogReply);
    if ids.Failure? then Some(ids.error)
    else if !Member(ids.value, JStr(value)) then Some(ValueError(message))
    else None
  }

  /** On a catalog reply of the shape `{"data": [{"id": ...}, ...]}`
      a check passes exactly when some entry's `id` is `==` to the value, and
      otherwise raises the check's own `ValueError`. */
  lemma CatalogCheckOfCatalog(catalogReply: Json, entries: seq<Json>, value: string, message: string)
    requires catalogReply.JObj? && Get(catalogReply.fields, "data") == Some(JArr(entries))
    requires forall k :: 0 <= k < |entries| ==> entries[k].JObj? && "id" in Keys(entries[k].fields)
    ensures CatalogCheck(catalogReply, value, message) ==
      if exists k :: 0 <= k < |entries| && PyEq(Get(entries[k].fields, "id").value, JStr(value))
      then None else Some(ValueError(message))
  {
    IdsOfCatalog(catalogReply, entries);
    var ids := Ids(catalogReply).value;
    if exists k :: 0 <= k < |entries| && PyEq(Get(entries[k].fields, "id").value, JStr(value)) {
      var k :| 0 <= k < |entries| && PyEq(Get(entries[k].fields, "id").value, JStr(value));
      assert PyEq(ids[k], JStr(value));
    } else {
      forall k | 0 <= k < |ids| ensures !PyEq(ids[k], JStr(value)) {
        assert Get(entries[k].fields, "id").value == ids[k];
      }
    }
  }

  method CheckCatalog(catalogReply: Json, value: string, message: string) returns (r: Option<Exception>)
    ensures r == CatalogCheck(catalogReply, value, message)
  {
    var ids := ExtractIds(catalogReply);
    if ids.Failure? {
      return Some(ids.error);
    }
    r := if Member(ids.value, JStr(value)) then None else Some(ValueError(message));
  }

  class LinodeClient {
    const token: string
    const authHeader: Dict

    /** `linodeClient(TOKEN)`. */
    constructor (token: string)
      ensures this.token == token
      ensures authHeader == BearerHeader(token)
    {
      this.token := token;
      this.authHeader := BearerHeader(token);
    }

    /** The request each method hands to `requests`. */
    function Describe(op: Operation): (r: Request)
      ensures r.url == InstanceUrl(op.linodeID, Action(op))
      ensures r.headers.None? <==>
        op.ShutDownLinode? || op.RestoreBackup? || op.DeleteConfig? || op.CreateDisk?
      ensures r.headers.Some? ==> r.headers.value == authHeader
      ensures r.data == if op.CreateDisk? then Some(authHeader) else None
      ensures r.verb == GET <==>
        op.FindLinode? || op.StatisticsLinode? || op.GetBackups? || op.FindBackup? ||
        op.GetConfigs? || op.FindConfig? || op.GetDisks?
      ensures r.verb == PUT <==> op.UpdateLinode? || op.UpdateConfig?
      ensures r.verb == DELETE <==> op.DeleteLinode? || op.DeleteConfig?
      ensures r.json.Some? <==>
        HasKwargs(op) || op.ResetPassLinode? || op.CreateSnapshot?
      ensures PassesKwargs(op) ==> r.json == Some(JObj(op.kwargs))
      ensures op.ResetPassLinode? ==> r.json == Some(JObj([("root_pass", JStr(op.password))]))
      ensures op.CreateSnapshot? ==> r.json == Some(JObj([("label", JStr(op.labelText))]))
      ensures Assembles(op) ==> r.json == Some(JObj(Overlay(RequiredFields(op), op.kwargs)))
    {
      // `createDisk` passes the header dict as the positional `data` argument
      var data := if op.CreateDisk? then Some(authHeader) else None;
      Request(VerbOf(op), InstanceUrl(op.linodeID, Action(op)), data, PayloadOf(op), HeadersOf(op))
    }

    /** The `headers=` argument: the bearer header, except where the method
        leaves it out. */
    function HeadersOf(op: Operation): Option<Dict>
    {
      match op
      case ShutDownLinode(_) => None
      case RestoreBackup(_, _) => None
      case DeleteConfig(_, _) => None
      case CreateDisk(_, _, _) => None
      case _ => Some(authHeader)
    }

    /** One call of an instance method: its request is sent, and the reply
      the transport returns is handled by the shared branch. */
    method Perform(op: Operation, reply: Json) returns (x: Exchange)
      ensures x.sent == [Describe(op)]
      ensures x.outcome == Handled(reply, ReplyOf(op))
    {
      var request := Describe(op);
      if Assembles(op) {
        var body := AssembleBody(RequiredFields(op), op.kwargs);
        request := request.(json := Some(JObj(body)));
      }
      var outcome := HandleResponse(reply, ReplyOf(op));
      x := Exchange([request], outcome);
    }

    /** `getLinodes()`: the ids of the account's instances. */
    method GetLinodes(reply: Json) returns (x: Exchange)
      ensures x.sent == [Request(GET, InstancesUrl, None, None, Some(authHeader))]
      ensures x.outcome == match Ids(reply)
        case Success(ids) => Return(JArr(ids))
        case Failure(e) => Raise(e)
    {
      var ids := ExtractIds(reply);
      var outcome := if ids.Success? then Return(JArr(ids.value)) else Raise(ids.error);
      x := Exchange([Request(GET, InstancesUrl, None, None, Some(authHeader))], outcome);
    }

    /** The POST `createLinode` sends once every check has passed. */
    function CreateRequest(region: string, plan: string, image: string, rootPass: string, kwargs: Dict): Request
    {
      Request(POST, InstancesUrl, None, Some(JObj(Overlay(CreateFields(region, plan, image, rootPass), kwargs))), Some(authHeader))
    }

    /** `createLinode`: the region, type and image catalogs are fetched and
        checked one after another, and only then is the instance created.
        Each `...Reply` is the decoded answer to the corresponding request. */
    function CreateLinodeExchange(region: string, plan: string, image: string, rootPass: string, kwargs: Dict,
                                  regionsReply: Json, typesReply: Json, imagesReply: Json, reply: Json): Exchange
    {
      var regionCheck := CatalogCheck(regionsReply, region, RegionMessage);
      if regionCheck.Some? then Exchange([RegionsRequest], Raise(regionCheck.value))
      else
        var typeCheck := CatalogCheck(typesReply, plan, TypeMessage);
        if typeCheck.Some? then Exchange([RegionsRequest, TypesRequest], Raise(typeCheck.value))
        else
          var imagesRequest := ImagesRequest(true, Some(token));
          if imagesRequest.Failure? then Exchange([RegionsRequest, TypesRequest], Raise(imagesRequest.error))
          else
            var fetched := [RegionsRequest, TypesRequest, imagesRequest.value];
            var imageCheck := CatalogCheck(imagesReply, image, ImageMessage);
            if imageCheck.Some? then Exchange(fetched, Raise(imageCheck.value))
            else Exchange(fetched + [CreateRequest(region, plan, image, rootPass, kwargs)], Handled(reply, ReplyBody))
    }

    method CreateLinode(region: string, plan: string, image: string, rootPass: string, kwargs: Dict,
                        regionsReply: Json, typesReply: Json, imagesReply: Json, reply: Json) returns (x: Exchange)
      ensures x == CreateLinodeExchange(region, plan, image, rootPass, kwargs, regionsReply, typesReply, imagesReply, reply)
    {
      var regionCheck := CheckCatalog(regionsReply, region, RegionMessage);
      if regionCheck.Some? {
        return Exchange([RegionsRequest], Raise(regionCheck.value));
      }
      var typeCheck := CheckCatalog(typesReply, plan, TypeMessage);
      if typeCheck.Some? {
        return Exchange([RegionsRequest, TypesRequest], Raise(typeCheck.value));
      }
      var imagesRequest := ImagesRequest(true, Some(token));
      if imagesRequest.Failure? {
        return Exchange([RegionsRequest, TypesRequest], Raise(imagesRequest.error));
      }
      var fetched := [RegionsRequest, TypesRequest, imagesRequest.value];
      var imageCheck := CheckCatalog(imagesReply, image, ImageMessage);
      if imageCheck.Some? {
        return Exchange(fetched, Raise(imageCheck.value));
      }
      var body := AssembleBody(CreateFields(region, plan, image, rootPass), kwargs);
      var post := Request(POST, InstancesUrl, None, Some(JObj(body)), Some(authHeader));
      var outcome := HandleResponse(reply, ReplyBody);
      x := Exchange(fetched + [post], outcome);
    }

    /** With the catalogs fetched, the checks run region, type, image: the
        first failure is the `ValueError` raised, after only catalog lookups;
        when all pass the instance is created and its reply handled. */
    lemma CreateLinodeValidation(region: string, plan: string, image: string, rootPass: string, kwargs: Dict,
                                 regionsReply: Json, typesReply: Json, imagesReply: Json, reply: Json,
                                 regions: seq<Json>, types: seq<Json>, images: seq<Json>)
      requires Ids(regionsReply) == Success(regions)
      requires Ids(typesReply) == Success(types)
      requires Ids(imagesReply) == Success(images)
      requires token != ""
      ensures var x := CreateLinodeExchange(region, plan, image, rootPass, kwargs, regionsReply, typesReply, imagesReply, reply);
        match Preflight(region, plan, image, regions, types, images)
        case Some(m) => x.outcome == Raise(ValueError(m)) && x.sent <= CatalogRequests()
        case None =>
          x.sent == CatalogRequests() + [CreateRequest(region, plan, image, rootPass, kwargs)] &&
          x.outcome == Handled(reply, ReplyBody)
    {
    }

    /** The checks passed exactly when every catalog was read, the token is
        usable and `Preflight` found nothing wrong. */
    predicate CreateChecksPass(region: string, plan: string, image: string,
                               regionsReply: Json, typesReply: Json, imagesReply: Json)
    {
      CatalogCheck(regionsReply, region, RegionMessage).None? &&
      CatalogCheck(typesReply, plan, TypeMessage).None? &&
      token != "" &&
      CatalogCheck(imagesReply, image, ImageMessage).None?
    }

    /** The catalog lookups `createLinode` makes, in order: regions, types
        and, when the token allows it, the account's images. */
    function CatalogRequests(): (r: seq<Request>)
      ensures forall k :: 0 <= k < |r| ==> r[k].verb == GET
      ensures |r| >= 2 && r[0].url == RegionsUrl && r[1].url == TypesUrl
      ensures r[0].headers.None? && r[1].headers.None?
      ensures |r| == 3 <==> token != ""
      ensures |r| == 3 ==> r[2].url == ImagesUrl && r[2].headers == Some(BearerHeader(token))
    {
      match ImagesRequest(true, Some(token))
      case Success(images) => [RegionsRequest, TypesRequest, images]
      case Failure(_) => [RegionsRequest, TypesRequest]
    }

    /** When a check fails `createLinode` has sent only some of the catalog
        lookups and raises; when all pass it has sent every lookup and then
        the POST. */
    lemma CreateLinodeSends(region: string, plan: string, image: string, rootPass: string, kwargs: Dict,
                            regionsReply: Json, typesReply: Json, imagesReply: Json, reply: Json)
      ensures var x := CreateLinodeExchange(region, plan, image, rootPass, kwargs, regionsReply, typesReply, imagesReply, reply);
        if CreateChecksPass(region, plan, image, regionsReply, typesReply, imagesReply) then
          x.sent == CatalogRequests() + [CreateRequest(region, plan, image, rootPass, kwargs)] &&
          x.outcome == Handled(reply, ReplyBody)
        else
          x.outcome.Raise? && x.sent <= CatalogRequests()
    {
    }

    /** `createLinode` sends its POST exactly when every check passed, and a
        `ValueError` therefore always means nothing was created. */
    lemma CreateLinodePostsOnlyWhenValid(region: string, plan: string, image: string, rootPass: string, kwargs: Dict,
                                         regionsReply: Json, typesReply: Json, imagesReply: Json, reply: Json)
      ensures var x := CreateLinodeExchange(region, plan, image, rootPass, kwargs, regionsReply, typesReply, imagesReply, reply);
        (exists k :: 0 <= k < |x.sent| && x.sent[k].verb == POST) <==>
          CreateChecksPass(region, plan, image, regionsReply, typesReply, imagesReply)
      ensures var x := CreateLinodeExchange(region, plan, image, rootPass, kwargs, regionsReply, typesReply, imagesReply, reply);
        x.outcome.Raise? && x.outcome.error.ValueError? ==> forall k :: 0 <= k < |x.sent| ==> x.sent[k].verb == GET
    {
      var x := CreateLinodeExchange(region, plan, image, rootPass, kwargs, regionsReply, typesReply, imagesReply, reply);
      var lookups := CatalogRequests();
      CreateLinodeSends(region, plan, image, rootPass, kwargs, regionsReply, typesReply, imagesReply, reply);
      HandledRaisesNoValueError(reply, ReplyBody);
      if CreateChecksPass(region, plan, image, regionsReply, typesReply, imagesReply) {
        assert x.sent[|lookups|].verb == POST;
      } else {
        assert forall k :: 0 <= k < |x.sent| ==> x.sent[k] == lookups[k];
      }
    }

    /** The `createLinode` body: the four required fields in their order,
        then the truthy keyword arguments in the caller's order. */
    lemma CreateBodyAppends(region: string, plan: string, image: string, rootPass: string, kwargs: Dict)
      requires DistinctKeys(kwargs)
      requires Keys(kwargs) !! CreateParameterNames
      ensures CreateRequest(region, plan, image, rootPass, kwargs).json ==
        Some(JObj(CreateFields(region, plan, image, rootPass) + TruthyEntries(kwargs)))
    {
      var fields := CreateFields(region, plan, image, rootPass);
      assert Keys(fields) <= CreateParameterNames by {
        forall key | key in Keys(fields) ensures key in CreateParameterNames {
          var i :| 0 <= i < |fields| && fields[i].0 == key;
        }
      }
      OverlayAppends(fields, kwargs);
    }

    /** In a filtering method's body the required fields come first, in
        order, followed by the truthy keyword arguments. */
    lemma AssembledBodyAppends(op: Operation)
      requires Assembles(op) && Bindable(op)
      ensures Describe(op).json == Some(JObj(RequiredFields(op) + TruthyEntries(op.kwargs)))
    {
      var fields := RequiredFields(op);
      RequiredFieldsAreParameters(op);
      OverlayAppends(fields, op.kwargs);
    }

    /** A key outside the required fields is in a filtering method's body
        exactly when the caller passed it with a truthy value, and then with
        that value; every required field keeps the caller's value. */
    lemma AssembledBodyFields(op: Operation, key: string)
      requires Assembles(op) && Bindable(op)
      ensures Describe(op).json.value.JObj?
      ensures key !in Keys(RequiredFields(op)) ==>
        (Get(Describe(op).json.value.fields, key).Some? <==>
           Get(op.kwargs, key).Some? && Truthy(Get(op.kwargs, key).value))
      ensures Get(Describe(op).json.value.fields, key).Some? && Get(op.kwargs, key).Some? ==>
        Get(Describe(op).json.value.fields, key) == Get(op.kwargs, key)
      ensures key in Keys(RequiredFields(op)) ==>
        Get(Describe(op).json.value.fields, key) == Get(RequiredFields(op), key)
    {
      var fields := RequiredFields(op);
      assert Describe(op).json == Some(JObj(Overlay(fields, op.kwargs)));
      OverlayGet(fields, op.kwargs, key);
      RequiredFieldsAreParameters(op);
    }
  }
}
