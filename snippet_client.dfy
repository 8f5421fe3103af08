/**
 * The four VCL-snippet operations of the API client. Each checks its required fields in a
 * fixed order, builds the resource path, issues one request and passes the reply on.
 * The network is not modelled: the reply the transport and the JSON decoder would produce
 * is a parameter, and the request an operation issues (if any) is part of its result.
 */
module SnippetClient {
  import opened Wrappers
  import opened Snippets
  import opened SnippetsByName
  import opened PathSegments
  import GoFmt

  /** The errors the operations return. */
  datatype Error =
    | MissingService            // ErrMissingService
    | MissingVersion            // ErrMissingVersion
    | MissingName               // ErrMissingName
    | Transport(cause: string)  // from the HTTP client, passed on unchanged
    | Decode(cause: string)     // from the JSON decoder, passed on unchanged
    | NotOk(msg: string)        // the delete acknowledgement did not report success

  /** The text of a NotOk error: the server's message behind a fixed "Not Ok: " prefix. */
  function NotOkText(msg: string): (text: string)
    ensures |text| == |msg| + 8 && text[..8] == "Not Ok: " && text[8..] == msg
  {
    "Not Ok: " + msg
  }

  /**
   * The text of an error where this client fixes it: transport and decoding errors keep
   * their own text, a rejected delete reads "Not Ok: " and the server's message. The
   * missing-field errors are defined in another file, so their text is not modelled.
   */
  function ErrorText(e: Error): (text: Option<string>)
    ensures text.Some? <==> !(e.MissingService? || e.MissingVersion? || e.MissingName?)
    ensures e.NotOk? ==> text.Some? && |text.value| >= 8 && text.value[..8] == "Not Ok: " && text.value[8..] == e.msg
  {
    match e
    case Transport(cause) => Some(cause)
    case Decode(cause) => Some(cause)
    case NotOk(msg) => Some(NotOkText(msg))
    case _ => None
  }

  datatype ListVCLSnippetsInput = ListVCLSnippetsInput(service: string, version: GoInt)

  datatype CreateVCLSnippetInput = CreateVCLSnippetInput(
    serviceId: string,
    version: GoInt,
    content: string,
    dynamic: Option<bool>,
    name: string,
    priority: GoUint,
    snippetType: VCLSnippetType
  )

  /** Unlike creation, an update carries neither an id nor the dynamic flag. */
  datatype UpdateVCLSnippetInput = UpdateVCLSnippetInput(
    serviceId: string,
    version: GoInt,
    content: string,
    name: string,
    priority: GoUint,
    snippetType: VCLSnippetType
  )

  datatype DeleteVCLSnippetInput = DeleteVCLSnippetInput(service: string, version: GoInt, name: string)

  /** The HTTP client calls the operations use. */
  datatype Verb = Get | PostForm | PutForm | Delete

  /** A form-encoded body is the input record it is encoded from. */
  datatype Body = NoBody | CreateForm(create: CreateVCLSnippetInput) | UpdateForm(update: UpdateVCLSnippetInput)

  datatype Request = Request(verb: Verb, path: string, body: Body)

  /** What the transport and the JSON decoder made of the server's answer. */
  datatype Reply<T> = TransportFailed(cause: string) | DecodeFailed(cause: string) | Decoded(value: T)

  /** The acknowledgement envelope a delete is answered with. */
  datatype StatusResp = StatusResp(ok: bool, msg: string)

  /** The request an operation issued, if any, and what it returned. */
  datatype Exchange<T> = Exchange(sent: Option<Request>, result: Result<T, Error>)

  /** Transport and decoding errors come back unchanged; a decoded value is the result. */
  predicate PassedOn<T(==)>(reply: Reply<T>, r: Result<T, Error>)
  {
    match reply
    case TransportFailed(cause) => r == Failure(Transport(cause))
    case DecodeFailed(cause) => r == Failure(Decode(cause))
    case Decoded(v) => r == Success(v)
  }

  /** `/service/{service}/version/{version}/snippet`, the snippets of one version. */
  function CollectionPath(service: string, version: int): (p: string)
    ensures |p| == 26 + |service| + |GoFmt.FormatInt(version)|
    ensures p[..9 + |service|] == "/service/" + service
    ensures p[|p| - 8..] == "/snippet"
  {
    "/service/" + service + "/version/" + GoFmt.FormatInt(version) + "/snippet"
  }

  /** `/service/{service}/version/{version}/snippet/{name}`, one snippet of a version. */
  function ItemPath(service: string, version: int, name: string): (p: string)
    ensures p == CollectionPath(service, version) + "/" + name
  {
    "/service/" + service + "/version/" + GoFmt.FormatInt(version) + "/snippet/" + name
  }

  /** The service and version a collection path names, if p has that shape. */
  function ParseCollectionPath(p: string): Option<(string, int)>
  {
    var segments := Split(p);
    if && |segments| == 6 && segments[0] == "" && segments[1] == "service" && segments[2] != ""
       && segments[3] == "version" && GoFmt.ParseInt(segments[4]).Some? && segments[5] == "snippet"
    then Some((segments[2], GoFmt.ParseInt(segments[4]).value))
    else None
  }

  /** The service, version and snippet name an item path names, if p has that shape. */
  function ParseItemPath(p: string): Option<(string, int, string)>
  {
    var segments := Split(p);
    if && |segments| == 7 && segments[0] == "" && segments[1] == "service" && segments[2] != ""
       && segments[3] == "version" && GoFmt.ParseInt(segments[4]).Some? && segments[5] == "snippet"
       && segments[6] != ""
    then Some((segments[2], GoFmt.ParseInt(segments[4]).value, segments[6]))
    else None
  }

  lemma FormatIntNoSlash(version: int)
    ensures NoSlash(GoFmt.FormatInt(version))
  {
    var d := GoFmt.FormatInt(version);
    forall i | 0 <= i < |d|
      ensures d[i] != '/'
    {
    }
  }

  /** The segments a collection path is made of. */
  function CollectionSegments(service: string, version: int): seq<string>
  {
    ["", "service", service, "version", GoFmt.FormatInt(version), "snippet"]
  }

  lemma JoinCollectionSegments(service: string, version: int)
    ensures var d := GoFmt.FormatInt(version);
      Join(CollectionSegments(service, version))
        == "" + "/" + ("service" + "/" + (service + "/" + ("version" + "/" + (d + "/" + "snippet"))))
  {
    var d := GoFmt.FormatInt(version);
    var segments := CollectionSegments(service, version);
    assert segments[1..] == ["service", service, "version", d, "snippet"];
    assert segments[1..][1..] == [service, "version", d, "snippet"];
    assert segments[1..][1..][1..] == ["version", d, "snippet"];
    assert segments[1..][1..][1..][1..] == [d, "snippet"];
    assert segments[1..][1..][1..][1..][1..] == ["snippet"];
    assert Join([d, "snippet"]) == d + "/" + "snippet";
    assert Join(["version", d, "snippet"]) == "version" + "/" + (d + "/" + "snippet");
    assert Join([service, "version", d, "snippet"]) == service + "/" + ("version" + "/" + (d + "/" + "snippet"));
  }

  lemma CollectionPathIsJoin(service: string, version: int)
    ensures CollectionPath(service, version) == Join(CollectionSegments(service, version))
  {
    var d := GoFmt.FormatInt(version);
    JoinCollectionSegments(service, version);
    var n4 := d + "/snippet";
    assert d + "/" + "snippet" == n4 by { ConcatAssoc(d, "/", "snippet"); }
    var n3 := "/version/" + n4;
    assert "/" + ("version" + "/" + n4) == n3 by { ConcatAssoc("version", "/", n4); ConcatAssoc("/", "version/", n4); }
    var n2 := service + n3;
    assert service + "/" + ("version" + "/" + n4) == n2 by { ConcatAssoc(service, "/", "version" + "/" + n4); }
    assert "" + "/" + ("service" + "/" + n2) == "/service/" + n2 by { ConcatAssoc("service", "/", n2); ConcatAssoc("/", "service/", n2); }
    assert CollectionPath(service, version) == "/service/" + n2 by {
      ConcatAssoc("/service/" + service + "/version/", d, "/snippet");
      ConcatAssoc("/service/" + service, "/version/", n4);
      ConcatAssoc("/service/", service, n3);
    }
  }

  lemma ItemPathIsJoin(service: string, version: int, name: string)
    ensures ItemPath(service, version, name) == Join(CollectionSegments(service, version) + [name])
  {
    CollectionPathIsJoin(service, version);
    JoinAppend(CollectionSegments(service, version), name);
  }

  /** A collection path built from a non-empty, slash-free service id reads back as its inputs. */
  lemma ParseCollectionPathOfCollectionPath(service: string, version: int)
    requires service != "" && NoSlash(service)
    ensures ParseCollectionPath(CollectionPath(service, version)) == Some((service, version))
  {
    FormatIntNoSlash(version);
    GoFmt.ParseIntOfFormatInt(version);
    CollectionPathIsJoin(service, version);
    SplitJoin(CollectionSegments(service, version));
  }

  /** An item path built from non-empty, slash-free service id and name reads back as its inputs. */
  lemma ParseItemPathOfItemPath(service: string, version: int, name: string)
    requires service != "" && NoSlash(service) && name != "" && NoSlash(name)
    ensures ParseItemPath(ItemPath(service, version, name)) == Some((service, version, name))
  {
    FormatIntNoSlash(version);
    GoFmt.ParseIntOfFormatInt(version);
    ItemPathIsJoin(service, version, name);
    SplitJoin(CollectionSegments(service, version) + [name]);
  }

  /** Every path ParseItemPath accepts is the item path of what it reads, so nothing else parses. */
  lemma ItemPathOfParseItemPath(p: string)
    requires ParseItemPath(p).Some?
    ensures var (service, version, name) := ParseItemPath(p).value;
      && service != "" && NoSlash(service) && name != "" && NoSlash(name)
      && ItemPath(service, version, name) == p
  {
    var s := Split(p);
    JoinSplit(p);
    SplitSegmentsNoSlash(p);
    GoFmt.FormatIntOfParseInt(s[4]);
    var (service, version, name) := ParseItemPath(p).value;
    ItemPathIsJoin(service, version, name);
    assert s == CollectionSegments(service, version) + [name];
  }

  /** Every path ParseCollectionPath accepts is the collection path of what it reads. */
  lemma CollectionPathOfParseCollectionPath(p: string)
    requires ParseCollectionPath(p).Some?
    ensures var (service, version) := ParseCollectionPath(p).value;
      && service != "" && NoSlash(service)
      && CollectionPath(service, version) == p
  {
    var s := Split(p);
    JoinSplit(p);
    SplitSegmentsNoSlash(p);
    GoFmt.FormatIntOfParseInt(s[4]);
    var (service, version) := ParseCollectionPath(p).value;
    CollectionPathIsJoin(service, version);
    assert s == CollectionSegments(service, version);
  }

  /**
   * Interpolation does not escape '/': a service id or name holding "/version/{n}/snippet/"
   * gives another snippet's path.
   */
  lemma UnescapedPathsCollide(service: string, version: int, between: string, other: int, name: string)
    ensures var d, e := GoFmt.FormatInt(version), GoFmt.FormatInt(other);
      ItemPath(service, version, between + "/version/" + e + "/snippet/" + name)
        == ItemPath(service + "/version/" + d + "/snippet/" + between, other, name)
  {
  }

  /** ListVCLSnippets: validate, GET the collection, decode, and stable-sort by name. */
  method ListVCLSnippets(i: ListVCLSnippetsInput, reply: Reply<seq<VCLSnippet>>) returns (x: Exchange<seq<VCLSnippet>>)
    ensures i.service == "" ==> x == Exchange(None, Failure(MissingService))
    ensures i.service != "" && i.version == 0 ==> x == Exchange(None, Failure(MissingVersion))
    ensures x.sent.Some? <==> i.service != "" && i.version != 0
    ensures x.sent.Some? ==> x.sent.value == Request(Get, CollectionPath(i.service, i.version), NoBody)
    ensures x.sent.Some? && reply.TransportFailed? ==> x.result == Failure(Transport(reply.cause))
    ensures x.sent.Some? && reply.DecodeFailed? ==> x.result == Failure(Decode(reply.cause))
    ensures x.result.Success? <==> x.sent.Some? && reply.Decoded?
    ensures x.result.Success? ==>
      && SortedByName(x.result.value)
      && multiset(x.result.value) == multiset(reply.value)
      && (forall k :: WithName(x.result.value, k) == WithName(reply.value, k))
      && x.result.value == StableSortByName(reply.value)
  {
    if i.service == "" {
      return Exchange(None, Failure(MissingService));
    }
    if i.version == 0 {
      return Exchange(None, Failure(MissingVersion));
    }
    var request := Request(Get, CollectionPath(i.service, i.version), NoBody);
    match reply
    case TransportFailed(cause) =>
      x := Exchange(Some(request), Failure(Transport(cause)));
    case DecodeFailed(cause) =>
      x := Exchange(Some(request), Failure(Decode(cause)));
    case Decoded(decoded) =>
      var a := new VCLSnippet[|decoded|](k requires 0 <= k < |decoded| => decoded[k]);
      assert a[..] == decoded;
      SortStable(a);
      x := Exchange(Some(request), Success(a[..]));
  }

  /** CreateVCLSnippet: validate service and version (never the name), then POST the form. */
  function CreateVCLSnippet(i: CreateVCLSnippetInput, reply: Reply<VCLSnippet>): (x: Exchange<VCLSnippet>)
    ensures i.serviceId == "" ==> x == Exchange(None, Failure(MissingService))
    ensures i.serviceId != "" && i.version == 0 ==> x == Exchange(None, Failure(MissingVersion))
    ensures x.sent.Some? <==> i.serviceId != "" && i.version != 0
    ensures x.sent.Some? ==> x.sent.value == Request(PostForm, CollectionPath(i.serviceId, i.version), CreateForm(i))
    ensures x.sent.Some? ==> PassedOn(reply, x.result)
  {
    if i.serviceId == "" then Exchange(None, Failure(MissingService))
    else if i.version == 0 then Exchange(None, Failure(MissingVersion))
    else
      var request := Request(PostForm, CollectionPath(i.serviceId, i.version), CreateForm(i));
      match reply
      case TransportFailed(cause) => Exchange(Some(request), Failure(Transport(cause)))
      case DecodeFailed(cause) => Exchange(Some(request), Failure(Decode(cause)))
      case Decoded(v) => Exchange(Some(request), Success(v))
  }

  /** UpdateVCLSnippet: validate service, version and name, then PUT the form to the snippet's path. */
  function UpdateVCLSnippet(i: UpdateVCLSnippetInput, reply: Reply<VCLSnippet>): (x: Exchange<VCLSnippet>)
    ensures i.serviceId == "" ==> x == Exchange(None, Failure(MissingService))
    ensures i.serviceId != "" && i.version == 0 ==> x == Exchange(None, Failure(MissingVersion))
    ensures i.serviceId != "" && i.version != 0 && i.name == "" ==> x == Exchange(None, Failure(MissingName))
    ensures x.sent.Some? <==> i.serviceId != "" && i.version != 0 && i.name != ""
    ensures x.sent.Some? ==> x.sent.value == Request(PutForm, ItemPath(i.serviceId, i.version, i.name), UpdateForm(i))
    ensures x.sent.Some? ==> PassedOn(reply, x.result)
  {
    if i.serviceId == "" then Exchange(None, Failure(MissingService))
    else if i.version == 0 then Exchange(None, Failure(MissingVersion))
    else if i.name == "" then Exchange(None, Failure(MissingName))
    else
      var request := Request(PutForm, ItemPath(i.serviceId, i.version, i.name), UpdateForm(i));
      match reply
      case TransportFailed(cause) => Exchange(Some(request), Failure(Transport(cause)))
      case DecodeFailed(cause) => Exchange(Some(request), Failure(Decode(cause)))
      case Decoded(v) => Exchange(Some(request), Success(v))
  }

  /** DeleteVCLSnippet: validate like an update, DELETE the snippet's path, then read the acknowledgement. */
  function DeleteVCLSnippet(i: DeleteVCLSnippetInput, reply: Reply<StatusResp>): (x: Exchange<()>)
    ensures i.service == "" ==> x == Exchange(None, Failure(MissingService))
    ensures i.service != "" && i.version == 0 ==> x == Exchange(None, Failure(MissingVersion))
    ensures i.service != "" && i.version != 0 && i.name == "" ==> x == Exchange(None, Failure(MissingName))
    ensures x.sent.Some? <==> i.service != "" && i.version != 0 && i.name != ""
    ensures x.sent.Some? ==> x.sent.value == Request(Delete, ItemPath(i.service, i.version, i.name), NoBody)
    ensures x.sent.Some? && reply.TransportFailed? ==> x.result == Failure(Transport(reply.cause))
    ensures x.sent.Some? && reply.DecodeFailed? ==> x.result == Failure(Decode(reply.cause))
    ensures x.result.Success? <==> x.sent.Some? && reply.Decoded? && reply.value.ok
    ensures x.sent.Some? && reply.Decoded? && !reply.value.ok ==>
      && x.result == Failure(NotOk(reply.value.msg))
      && ErrorText(x.result.error) == Some(NotOkText(reply.value.msg))
  {
    if i.service == "" then Exchange(None, Failure(MissingService))
    else if i.version == 0 then Exchange(None, Failure(MissingVersion))
    else if i.name == "" then Exchange(None, Failure(MissingName))
    else
      var request := Request(Delete, ItemPath(i.service, i.version, i.name), NoBody);
      match reply
      case TransportFailed(cause) => Exchange(Some(request), Failure(Transport(cause)))
      case DecodeFailed(cause) => Exchange(Some(request), Failure(Decode(cause)))
      case Decoded(status) =>
        if !status.ok then Exchange(Some(request), Failure(NotOk(status.msg)))
        else Exchange(Some(request), Success(()))
  }

  /**
   * An update and a delete of the same snippet are refused with the same error, or both
   * target the same path; which one holds does not depend on the replies.
   */
  lemma UpdateAndDeleteValidateAlike(u: UpdateVCLSnippetInput, d: DeleteVCLSnippetInput, ru: Reply<VCLSnippet>, rd: Reply<StatusResp>)
    requires u.serviceId == d.service && u.version == d.version && u.name == d.name
    ensures UpdateVCLSnippet(u, ru).sent.None? <==> DeleteVCLSnippet(d, rd).sent.None?
    ensures UpdateVCLSnippet(u, ru).sent.None? ==> UpdateVCLSnippet(u, ru).result.error == DeleteVCLSnippet(d, rd).result.error
    ensures UpdateVCLSnippet(u, ru).sent.Some? ==> UpdateVCLSnippet(u, ru).sent.value.path == DeleteVCLSnippet(d, rd).sent.value.path
  {
  }

  /**
   * The request a delete sends names the snippet it was asked about: reading the path back
   * gives the service id, version and name, provided the service id and name contain no '/'.
   */
  lemma ItemRequestNamesItsSnippet(i: DeleteVCLSnippetInput, reply: Reply<StatusResp>)
    requires NoSlash(i.service) && NoSlash(i.name)
    requires DeleteVCLSnippet(i, reply).sent.Some?
    ensures ParseItemPath(DeleteVCLSnippet(i, reply).sent.value.path) == Some((i.service, i.version as int, i.name))
  {
    ParseItemPathOfItemPath(i.service, i.version, i.name);
  }
}
