/**
 * The request handler's decision logic: method check, entry id check,
 * configuration check, then one search by handle and one write, either a
 * create or an update of the product found. The store's answers (what the
 * search found, whether the write was accepted) are inputs.
 */
module Upsert {
  import opened Wrappers
  import opened JsValues
  import opened Mapper
  import opened Handles
  import opened Payload

  /** The three store settings whose presence the handler checks. */
  datatype Config = Config(storeDomain: Option<string>, accessToken: Option<string>, apiVersion: Option<string>)

  /** An environment setting that is defined and non-empty. */
  predicate IsSet(setting: Option<string>)
  {
    setting.Some? && setting.value != ""
  }

  predicate Complete(config: Config)
  {
    IsSet(config.storeDomain) && IsSet(config.accessToken) && IsSet(config.apiVersion)
  }

  datatype Request = Request(httpMethod: string, body: RawRecord)

  /** A product as the store holds it: the id the platform assigned and the written fields. */
  datatype Product = Product(id: nat, fields: ProductPayload)

  /** The answer to the search by handle. */
  datatype LocateOutcome = Found(product: Product) | NotFound | LocateFailed

  /** `findProductByHandle`: a failed search is reported as "no product", like an empty one. */
  function Existing(locate: LocateOutcome): (r: Option<Product>)
    ensures r.Some? <==> locate.Found?
    ensures r.Some? ==> r.value == locate.product
  {
    match locate
    case Found(p) => Some(p)
    case NotFound => None
    case LocateFailed => None
  }

  /**
   * The write the handler sends. An update body is `{id, handle, ...payload}`;
   * the payload already carries the same handle, so it is the payload plus the id.
   */
  datatype WriteCall = Create(payload: ProductPayload) | Update(id: nat, payload: ProductPayload)

  /** The store's answer to the write: the product it returned, or the rejection text. */
  datatype WriteOutcome = Accepted(product: Product) | Rejected(details: string)

  datatype Action = Created | Updated

  datatype Response =
    | MethodNotAllowed
    | MissingEntryId(received: RawRecord)
    | MissingConfig(hasStoreDomain: bool, hasAccessToken: bool, hasApiVersion: bool)
    | WriteFailed(action: Action, details: string, productId: Option<nat>, handle: string)
    | Synced(action: Action, product: Product)

  function Status(r: Response): int
  {
    match r
    case MethodNotAllowed => 405
    case MissingEntryId(_) => 400
    case MissingConfig(_, _, _) => 500
    case WriteFailed(_, _, _, _) => 502
    case Synced(_, _) => 200
  }

  /** A call to the store, in the order the handler makes them. */
  datatype Call = Search(handle: string) | Write(write: WriteCall)

  /** How far a request gets before the store is contacted. */
  datatype Admission = Refused(response: Response) | Admitted(dog: Dog, handle: string)

  /**
   * The checks before any call: only POST is served; the mapped record must
   * carry a truthy entry id; all three settings must be present. An admitted
   * request gets its permanent handle.
   */
  function Admit(req: Request, config: Config): (a: Admission)
    ensures a.Admitted? <==> req.httpMethod == "POST" && Given(Lookup(req.body, IdKey)) && Complete(config)
    ensures req.httpMethod != "POST" ==> a == Refused(MethodNotAllowed)
    ensures req.httpMethod == "POST" && !Given(Lookup(req.body, IdKey)) ==> a == Refused(MissingEntryId(req.body))
    ensures req.httpMethod == "POST" && Given(Lookup(req.body, IdKey)) && !Complete(config) ==>
      a == Refused(MissingConfig(IsSet(config.storeDomain), IsSet(config.accessToken), IsSet(config.apiVersion)))
    ensures a.Admitted? ==> a.dog == MapDog(req.body) && a.handle == DeriveHandle(Lookup(req.body, IdKey).value)
  {
    if req.httpMethod != "POST" then Refused(MethodNotAllowed)
    else
      var dog := MapDog(req.body);
      if !Given(dog.entryId) then Refused(MissingEntryId(req.body))
      else if !Complete(config) then
        Refused(MissingConfig(IsSet(config.storeDomain), IsSet(config.accessToken), IsSet(config.apiVersion)))
      else Admitted(dog, DeriveHandle(dog.entryId.value))
  }

  /** Update the product the search found (by its id), or create one when none was found. */
  function PlanWrite(dog: Dog, handle: string, locate: LocateOutcome): (w: WriteCall)
    ensures w.payload == BuildPayload(dog, handle)
    ensures w.Update? <==> locate.Found?
    ensures w.Update? ==> w.id == locate.product.id
  {
    var payload := BuildPayload(dog, handle);
    match Existing(locate)
    case Some(existing) => Update(existing.id, payload)
    case None => Create(payload)
  }

  /** The response once the write has been answered. */
  function Finish(handle: string, write: WriteCall, outcome: WriteOutcome): (r: Response)
    ensures Status(r) == 502 <==> outcome.Rejected?
    ensures Status(r) == 200 <==> outcome.Accepted?
    ensures r.Synced? ==> r.product == outcome.product && (r.action == Updated <==> write.Update?)
    ensures r.WriteFailed? ==>
      r.details == outcome.details && r.handle == handle
      && r.action == (if write.Update? then Updated else Created)
      && r.productId == (if write.Update? then Some(write.id) else None)
  {
    match outcome
    case Rejected(details) =>
      (match write
       case Update(id, _) => WriteFailed(Updated, details, Some(id), handle)
       case Create(_) => WriteFailed(Created, details, None, handle))
    case Accepted(product) => Synced(if write.Update? then Updated else Created, product)
  }

  /** What one invocation answers and which store calls it makes. */
  datatype Exchange = Exchange(response: Response, calls: seq<Call>)

  predicate Proceeds(req: Request, config: Config)
  {
    req.httpMethod == "POST" && Given(Lookup(req.body, IdKey)) && Complete(config)
  }

  /**
   * `handler`. A refused request makes no store call. An admitted one makes
   * exactly a search by its handle and then one write carrying that handle:
   * an update of the found product's id when the search found one, a create
   * otherwise (also when the search failed). The response is 502 exactly when
   * the write is rejected, and otherwise 200 with the action taken.
   */
  function HandleRequest(req: Request, config: Config, locate: LocateOutcome, outcome: WriteOutcome): (x: Exchange)
    ensures Status(x.response) in {200, 400, 405, 500, 502}
    ensures req.httpMethod != "POST" ==> x.response == MethodNotAllowed && x.calls == []
    ensures req.httpMethod == "POST" && !Given(Lookup(req.body, IdKey)) ==>
      x.response == MissingEntryId(req.body) && x.calls == []
    ensures req.httpMethod == "POST" && Given(Lookup(req.body, IdKey)) && !Complete(config) ==>
      x.response == MissingConfig(IsSet(config.storeDomain), IsSet(config.accessToken), IsSet(config.apiVersion))
      && x.calls == []
    ensures x.calls != [] <==> Proceeds(req, config)
    ensures Proceeds(req, config) ==>
      var handle := DeriveHandle(Lookup(req.body, IdKey).value);
      && |x.calls| == 2
      && x.calls[0] == Search(handle)
      && x.calls[1].Write?
      && x.calls[1].write.payload.handle == handle
      && x.calls[1].write.payload == BuildPayload(MapDog(req.body), handle)
      && (x.calls[1].write.Update? <==> locate.Found?)
      && (locate.Found? ==> x.calls[1].write.id == locate.product.id)
      && (Status(x.response) == 502 <==> outcome.Rejected?)
      && (outcome.Accepted? ==>
            x.response == Synced(if locate.Found? then Updated else Created, outcome.product))
  {
    match Admit(req, config)
    case Refused(response) => Exchange(response, [])
    case Admitted(dog, handle) =>
      var write := PlanWrite(dog, handle, locate);
      Exchange(Finish(handle, write, outcome), [Search(handle), Write(write)])
  }
}
