/**
 * The downstream product store, seen through the handler: a map from handle
 * to product. It closes the loop of the upsert: the search reads the map, the
 * write changes it, and the handle of a product never moves.
 */
module Store {
  import opened Wrappers
  import opened JsValues
  import opened Mapper
  import opened Handles
  import opened Payload
  import opened Upsert

  type Catalog = map<string, Product>

  /** Every product is filed under its own handle, and no two products share an id. */
  predicate WellFormed(c: Catalog)
  {
    && (forall h :: h in c ==> c[h].fields.handle == h)
    && (forall h1, h2 :: h1 in c && h2 in c && c[h1].id == c[h2].id ==> h1 == h2)
  }

  function Ids(c: Catalog): set<nat>
  {
    set h | h in c :: c[h].id
  }

  /**
   * The search by exact handle. `reachable` is false when the request fails
   * or the store answers with an error status.
   */
  function Locate(c: Catalog, handle: string, reachable: bool): (l: LocateOutcome)
    ensures !reachable ==> l == LocateFailed
    ensures reachable ==> (l.Found? <==> handle in c)
    ensures l.Found? ==> l.product == c[handle]
  {
    if !reachable then LocateFailed
    else if handle in c then Found(c[handle])
    else NotFound
  }

  /**
   * The store carrying out a write. `rejection` is the error text when the
   * store refuses the write. A create gets the fresh id; its handle is filed
   * unless already taken (the platform keeps handles unique, and the new
   * product then lands under a handle this map does not track). An update
   * replaces the product with that id and files it under the payload's handle;
   * an unknown id is refused.
   */
  function Apply(c: Catalog, write: WriteCall, rejection: Option<string>, freshId: nat): (WriteOutcome, Catalog)
  {
    if rejection.Some? then (Rejected(rejection.value), c)
    else
      match write
      case Create(payload) =>
        var p := Product(freshId, payload);
        (Accepted(p), if payload.handle in c then c else c[payload.handle := p])
      case Update(id, payload) =>
        if exists h :: h in c && c[h].id == id then
          var p := Product(id, payload);
          var others := map h | h in c && c[h].id != id :: c[h];
          (Accepted(p), others[payload.handle := p])
        else (Rejected("Not Found"), c)
  }

  /**
   * One invocation of the handler against the store. Only an admitted request
   * touches the store; a rejected write leaves it as it was; an accepted one
   * leaves a product filed under the request's handle.
   */
  function Sync(c: Catalog, req: Request, config: Config, reachable: bool, rejection: Option<string>, freshId: nat)
    : (r: (Exchange, Catalog))
    ensures r.0.calls != [] <==> Proceeds(req, config)
    ensures !Proceeds(req, config) ==> r.1 == c
    ensures rejection.Some? ==> r.1 == c
    ensures Proceeds(req, config) ==> (Status(r.0.response) == 502 <==> rejection.Some?)
    ensures Proceeds(req, config) && rejection.None? ==> DeriveHandle(req.body[IdKey]) in r.1
  {
    match Admit(req, config)
    case Refused(response) => (HandleRequest(req, config, NotFound, Rejected("")), c)
    case Admitted(dog, handle) =>
      var locate := Locate(c, handle, reachable);
      var write := PlanWrite(dog, handle, locate);
      assert write.Update? ==> handle in c && c[handle].id == write.id;
      ApplyAnswers(c, write, rejection, freshId);
      var (outcome, c') := Apply(c, write, rejection, freshId);
      (HandleRequest(req, config, locate, outcome), c')
  }

  /**
   * The store refuses a write exactly when it is told to (an update always
   * names a filed id here); a refused write changes nothing, and an accepted
   * one files a product under the payload's handle.
   */
  lemma ApplyAnswers(c: Catalog, write: WriteCall, rejection: Option<string>, freshId: nat)
    requires write.Update? ==> exists h :: h in c && c[h].id == write.id
    ensures Apply(c, write, rejection, freshId).0.Rejected? <==> rejection.Some?
    ensures rejection.Some? ==> Apply(c, write, rejection, freshId).1 == c
    ensures rejection.None? ==> write.payload.handle in Apply(c, write, rejection, freshId).1
  {
  }

  /** A refused request leaves the store as it was. */
  lemma RefusedLeavesStore(c: Catalog, req: Request, config: Config, reachable: bool, rejection: Option<string>, freshId: nat)
    requires !Proceeds(req, config)
    ensures Sync(c, req, config, reachable, rejection, freshId).1 == c
    ensures Sync(c, req, config, reachable, rejection, freshId).0.calls == []
  {
  }

  /** A rejected write leaves the store as it was and answers 502. */
  lemma RejectedLeavesStore(c: Catalog, req: Request, config: Config, reachable: bool, details: string, freshId: nat)
    requires Proceeds(req, config)
    ensures Sync(c, req, config, reachable, Some(details), freshId).1 == c
    ensures Status(Sync(c, req, config, reachable, Some(details), freshId).0.response) == 502
  {
  }

  /** Every write keeps the store well formed, provided the platform's new id is fresh. */
  lemma ApplyPreservesWellFormed(c: Catalog, write: WriteCall, rejection: Option<string>, freshId: nat)
    requires WellFormed(c)
    requires freshId !in Ids(c)
    ensures WellFormed(Apply(c, write, rejection, freshId).1)
  {
    if rejection.None? {
      match write
      case Create(payload) =>
        if payload.handle !in c {
          var c' := c[payload.handle := Product(freshId, payload)];
        }
      case Update(id, payload) =>
    }
  }

  /**
   * Updating the product filed under `handle` with a payload for that same
   * handle keeps the filed handles, keeps that product's id, and leaves every
   * other product untouched.
   */
  lemma ApplyUpdateInPlace(c: Catalog, handle: string, payload: ProductPayload, freshId: nat)
    requires WellFormed(c)
    requires handle in c && payload.handle == handle
    ensures var (outcome, c') := Apply(c, Update(c[handle].id, payload), None, freshId);
      && outcome == Accepted(Product(c[handle].id, payload))
      && c'.Keys == c.Keys
      && c'[handle] == Product(c[handle].id, payload)
      && (forall h :: h in c && h != handle ==> c'[h] == c[h])
  {
    var id := c[handle].id;
    var others := map h | h in c && c[h].id != id :: c[h];
    assert others.Keys == c.Keys - {handle};
  }

  /** An admitted request's sync: search the store, plan the write, let the store apply it. */
  lemma SyncSteps(c: Catalog, req: Request, config: Config, reachable: bool, rejection: Option<string>, freshId: nat)
    requires Proceeds(req, config)
    ensures var a := Admit(req, config);
      var locate := Locate(c, a.handle, reachable);
      var write := PlanWrite(a.dog, a.handle, locate);
      && a.Admitted?
      && write.payload.handle == a.handle
      && Sync(c, req, config, reachable, rejection, freshId)
         == (HandleRequest(req, config, locate, Apply(c, write, rejection, freshId).0), Apply(c, write, rejection, freshId).1)
  {
  }

  lemma SyncPreservesWellFormed(c: Catalog, req: Request, config: Config, reachable: bool, rejection: Option<string>, freshId: nat)
    requires WellFormed(c)
    requires freshId !in Ids(c)
    ensures WellFormed(Sync(c, req, config, reachable, rejection, freshId).1)
  {
    if Proceeds(req, config) {
      SyncSteps(c, req, config, reachable, rejection, freshId);
      var a := Admit(req, config);
      ApplyPreservesWellFormed(c, PlanWrite(a.dog, a.handle, Locate(c, a.handle, reachable)), rejection, freshId);
    }
  }

  /**
   * When the search finds the product filed under the handle, the accepted
   * update keeps its id and its handle and overwrites every other field with
   * the payload built from this submission: the same handles are filed, and
   * every other product is untouched.
   */
  lemma UpdateKeepsIdentity(c: Catalog, req: Request, config: Config, freshId: nat)
    requires WellFormed(c)
    requires Proceeds(req, config)
    requires DeriveHandle(req.body[IdKey]) in c
    ensures var handle := Admit(req, config).handle;
      var (x, c') := Sync(c, req, config, true, None, freshId);
      && x.response.Synced? && x.response.action == Updated
      && x.response.product.id == c[handle].id
      && c'.Keys == c.Keys
      && c'[handle] == Product(c[handle].id, BuildPayload(MapDog(req.body), handle))
      && (forall h :: h in c && h != handle ==> c'[h] == c[h])
  {
    SyncSteps(c, req, config, true, None, freshId);
    var a := Admit(req, config);
    var locate := Locate(c, a.handle, true);
    var write := PlanWrite(a.dog, a.handle, locate);
    ApplyUpdateInPlace(c, a.handle, write.payload, freshId);
  }

  /**
   * The duplicate risk of treating a failed search as "not found": the
   * product already filed under the handle is not updated; a second product
   * is created with a new id, and the filed one stays as it was.
   */
  lemma FailedLocateCreatesDuplicate(c: Catalog, req: Request, config: Config, freshId: nat)
    requires WellFormed(c)
    requires freshId !in Ids(c)
    requires Proceeds(req, config)
    requires DeriveHandle(req.body[IdKey]) in c
    ensures var handle := Admit(req, config).handle;
      var (x, c') := Sync(c, req, config, false, None, freshId);
      && x.response == Synced(Created, x.response.product)
      && x.response.product.id == freshId
      && x.response.product.id != c[handle].id
      && c' == c
  {
    SyncSteps(c, req, config, false, None, freshId);
    var handle := Admit(req, config).handle;
    assert c[handle].id in Ids(c);
  }

  /** A create for a handle not yet filed files the new product under it. */
  lemma ApplyCreateFiles(c: Catalog, payload: ProductPayload, freshId: nat)
    requires payload.handle !in c
    ensures var (outcome, c') := Apply(c, Create(payload), None, freshId);
      && outcome == Accepted(Product(freshId, payload))
      && c'.Keys == c.Keys + {payload.handle}
      && c'[payload.handle] == Product(freshId, payload)
      && (forall h :: h in c ==> c'[h] == c[h])
  {
  }

  /**
   * A sync whose handle is not yet filed, with the search succeeding and the
   * platform accepting, creates the product under that handle with the new id
   * and the payload built from the submission.
   */
  lemma SyncCreates(c: Catalog, req: Request, config: Config, newId: nat)
    requires Proceeds(req, config)
    requires DeriveHandle(req.body[IdKey]) !in c
    ensures var handle := Admit(req, config).handle;
      var (x, c') := Sync(c, req, config, true, None, newId);
      && x.response.Synced? && x.response.action == Created && x.response.product.id == newId
      && x.calls[0] == Search(handle) && x.calls[1].write.payload.handle == handle
      && c'.Keys == c.Keys + {handle}
      && c'[handle] == Product(newId, BuildPayload(MapDog(req.body), handle))
  {
    CreateAnswer(c, req, config, newId);
    CreateFiles(c, req, config, newId);
  }

  lemma CreateAnswer(c: Catalog, req: Request, config: Config, newId: nat)
    requires Proceeds(req, config)
    requires DeriveHandle(req.body[IdKey]) !in c
    ensures var handle := Admit(req, config).handle;
      var x := Sync(c, req, config, true, None, newId).0;
      && x.response.Synced? && x.response.action == Created && x.response.product.id == newId
      && x.calls[0] == Search(handle) && x.calls[1].write.payload.handle == handle
  {
    SyncSteps(c, req, config, true, None, newId);
    var a := Admit(req, config);
    var locate := Locate(c, a.handle, true);
    var write := PlanWrite(a.dog, a.handle, locate);
    ApplyCreateFiles(c, write.payload, newId);
    SyncAccepted(req, config, locate, Product(newId, write.payload));
  }

  lemma CreateFiles(c: Catalog, req: Request, config: Config, newId: nat)
    requires Proceeds(req, config)
    requires DeriveHandle(req.body[IdKey]) !in c
    ensures var handle := Admit(req, config).handle;
      var c' := Sync(c, req, config, true, None, newId).1;
      && c'.Keys == c.Keys + {handle}
      && c'[handle] == Product(newId, BuildPayload(MapDog(req.body), handle))
  {
    SyncSteps(c, req, config, true, None, newId);
    var a := Admit(req, config);
    var locate := Locate(c, a.handle, true);
    assert locate == NotFound;
    var payload := BuildPayload(MapDog(req.body), a.handle);
    assert PlanWrite(a.dog, a.handle, locate) == Create(payload);
    ApplyCreateFiles(c, payload, newId);
  }

  /** The handler's answer when the store accepts the write. */
  lemma SyncAccepted(req: Request, config: Config, locate: LocateOutcome, product: Product)
    requires Proceeds(req, config)
    ensures var handle := Admit(req, config).handle;
      var x := HandleRequest(req, config, locate, Accepted(product));
      && x.response == Synced(if locate.Found? then Updated else Created, product)
      && x.calls[0] == Search(handle) && x.calls[1].write.payload.handle == handle
  {
  }

  /**
   * The first sync of an entry creates its product under `dog-<Id>` with the
   * platform's new id; a later sync of any submission with the same `Id`
   * (whatever else changed, the dog's name included) updates that same
   * product: same id, same handle, no new product, and the product now holds
   * the payload built from the later submission.
   */
  lemma CreateThenUpdate(c: Catalog, first: Request, second: Request, config: Config, newId: nat, unusedId: nat)
    requires WellFormed(c)
    requires newId !in Ids(c)
    requires Proceeds(first, config) && Proceeds(second, config)
    requires Lookup(second.body, IdKey) == Lookup(first.body, IdKey)
    requires DeriveHandle(first.body[IdKey]) !in c
    ensures var handle := Admit(first, config).handle;
      var (x1, c1) := Sync(c, first, config, true, None, newId);
      var (x2, c2) := Sync(c1, second, config, true, None, unusedId);
      && x1.response.Synced? && x1.response.action == Created && x1.response.product.id == newId
      && x2.response.Synced? && x2.response.action == Updated && x2.response.product.id == newId
      && x1.calls[0] == Search(handle) && x2.calls[0] == Search(handle)
      && c1.Keys == c.Keys + {handle} && c2.Keys == c1.Keys
      && c2[handle] == Product(newId, BuildPayload(MapDog(second.body), handle))
  {
    var handle := Admit(first, config).handle;
    SameIdSameHandle(first, second, config);
    SyncCreates(c, first, config, newId);
    var c1 := Sync(c, first, config, true, None, newId).1;
    SyncPreservesWellFormed(c, first, config, true, None, newId);
    UpdateKeepsIdentity(c1, second, config, unusedId);
    SyncSteps(c1, second, config, true, None, unusedId);
  }

  /** Two admitted requests with the same `Id` are filed under the same handle. */
  lemma SameIdSameHandle(first: Request, second: Request, config: Config)
    requires Proceeds(first, config) && Proceeds(second, config)
    requires Lookup(second.body, IdKey) == Lookup(first.body, IdKey)
    ensures Admit(first, config).handle == Admit(second, config).handle
    ensures Admit(first, config).handle == DeriveHandle(Lookup(first.body, IdKey).value)
  {
  }
}
